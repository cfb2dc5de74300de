/** The Google Drive service as the session sees it. Each endpoint answers
    from a script of replies, one per call, oldest first; a call once its
    script is used up is answered by a 503 without a JSON body. The values
    `randrange(5)` draws come from a script too (0 once it is used up).
    Every call and every sleep is appended to a log. */
module DriveRemote {
  import opened Wrappers
  import opened DriveUtils

  /** An error from the HTTP layer: the status, and the reason the JSON
      error body names (`None` when it is not JSON). */
  datatype HttpError = HttpError(status: int, jsonReason: Option<string>)

  /** What the empty script answers. */
  const Unavailable: HttpError := HttpError(503, None)

  /** One page of a `files().list` answer. */
  datatype Page = Page(files: seq<DriveItem>, nextPageToken: Option<string>)

  /** The `body` dict sent with create and update requests. */
  datatype Metadata = Metadata(name: string, mimeType: Option<string>, parents: Option<seq<string>>)

  /** The uploaded content, known here only by its mimetype. */
  datatype Media = Media(mimeType: string)

  datatype Request =
    | ListRequest(query: string, pageToken: Option<string>)
    | CreateRequest(body: Metadata, media: Option<Media>)
    | UpdateRequest(fileId: string, body: Metadata, media: Option<Media>)
    | DeleteRequest(fileId: string)
    | RemoveParentRequest(fileId: string, parentId: string)

  datatype Event = Call(request: Request) | Slept(seconds: int)

  /** A value of `randrange(5)`. */
  newtype Draw = x: int | 0 <= x < 5

  datatype Remote = Remote(
    listReplies: seq<Result<Page, HttpError>>,
    createReplies: seq<Result<string, HttpError>>,
    updateReplies: seq<Result<string, HttpError>>,
    deleteReplies: seq<Option<HttpError>>,
    draws: seq<Draw>,
    log: seq<Event>)

  /** The result of an operation together with the service state after it. */
  datatype Step<T> = Step(result: T, drive: Remote)

  function Next<T>(replies: seq<Result<T, HttpError>>): (r: Result<T, HttpError>)
    ensures replies == [] ==> r == Err(Unavailable)
    ensures replies != [] ==> r == replies[0]
  {
    if replies == [] then Err(Unavailable) else replies[0]
  }

  function Rest<T>(replies: seq<T>): (r: seq<T>)
    ensures replies == [] ==> r == []
    ensures replies != [] ==> r == replies[1..]
  {
    if replies == [] then [] else replies[1..]
  }

  /** `files().list(...).execute()`. */
  function ExecuteList(d: Remote, query: string, pageToken: Option<string>): (s: Step<Result<Page, HttpError>>)
    ensures s.result.Ok? ==> |s.drive.listReplies| == |d.listReplies| - 1
    ensures s.drive.log == d.log + [Call(ListRequest(query, pageToken))]
  {
    Step(Next(d.listReplies),
         d.(listReplies := Rest(d.listReplies), log := d.log + [Call(ListRequest(query, pageToken))]))
  }

  /** `files().create(...).execute()`: the new file's id. */
  function ExecuteCreate(d: Remote, body: Metadata, media: Option<Media>): (s: Step<Result<string, HttpError>>)
    ensures s.drive.log == d.log + [Call(CreateRequest(body, media))]
  {
    Step(Next(d.createReplies),
         d.(createReplies := Rest(d.createReplies), log := d.log + [Call(CreateRequest(body, media))]))
  }

  /** `files().update(fileId, body, media)`: the file's id. */
  function ExecuteUpdate(d: Remote, fileId: string, body: Metadata, media: Option<Media>): (s: Step<Result<string, HttpError>>)
    ensures s.drive.log == d.log + [Call(UpdateRequest(fileId, body, media))]
  {
    Step(Next(d.updateReplies),
         d.(updateReplies := Rest(d.updateReplies), log := d.log + [Call(UpdateRequest(fileId, body, media))]))
  }

  /** `files().update(fileId, removeParents=parentId)`, answered from the
      update script. */
  function ExecuteRemoveParent(d: Remote, fileId: string, parentId: string): (s: Step<Option<HttpError>>)
    ensures s.drive.log == d.log + [Call(RemoveParentRequest(fileId, parentId))]
  {
    var reply := Next(d.updateReplies);
    Step(if reply.Err? then Some(reply.error) else None,
         d.(updateReplies := Rest(d.updateReplies), log := d.log + [Call(RemoveParentRequest(fileId, parentId))]))
  }

  /** `files().delete(fileId)`. */
  function ExecuteDelete(d: Remote, fileId: string): (s: Step<Option<HttpError>>)
    ensures s.drive.log == d.log + [Call(DeleteRequest(fileId))]
  {
    Step(if d.deleteReplies == [] then Some(Unavailable) else d.deleteReplies[0],
         d.(deleteReplies := Rest(d.deleteReplies), log := d.log + [Call(DeleteRequest(fileId))]))
  }

  /** `sleep(5 + randrange(5))`. */
  function SleepRandom(d: Remote): Remote {
    var x: Draw := if d.draws == [] then 0 else d.draws[0];
    d.(draws := Rest(d.draws), log := d.log + [Slept(5 + x as int)])
  }

  /** A sleep appends one event of 5 to 9 seconds to the log and changes
      nothing but the log and the draws. */
  lemma SleepRandomSleeps(d: Remote)
    ensures exists s :: 5 <= s <= 9 && SleepRandom(d).log == d.log + [Slept(s)]
    ensures SleepRandom(d).(draws := d.draws, log := d.log) == d
  {
    var x: Draw := if d.draws == [] then 0 else d.draws[0];
    assert SleepRandom(d).log == d.log + [Slept(5 + x as int)];
  }

  /** Every sleep in the log lasts 5 to 9 seconds. */
  predicate SleepsInRange(log: seq<Event>) {
    forall k :: 0 <= k < |log| && log[k].Slept? ==> 5 <= log[k].seconds <= 9
  }

  /** The number of calls in the log. */
  function CallCount(log: seq<Event>): nat {
    if log == [] then 0 else CallCount(log[..|log| - 1]) + (if log[|log| - 1].Call? then 1 else 0)
  }

  /** The number of sleeps in the log. */
  function SleepCount(log: seq<Event>): nat {
    if log == [] then 0 else SleepCount(log[..|log| - 1]) + (if log[|log| - 1].Slept? then 1 else 0)
  }

  lemma {:induction false} CountsAppend(a: seq<Event>, b: seq<Event>)
    ensures CallCount(a + b) == CallCount(a) + CallCount(b)
    ensures SleepCount(a + b) == SleepCount(a) + SleepCount(b)
  {
    if b != [] {
      CountsAppend(a, b[..|b| - 1]);
      assert (a + b)[..|a + b| - 1] == a + b[..|b| - 1];
    } else {
      assert a + b == a;
    }
  }

  lemma SleepsInRangeAppend(a: seq<Event>, b: seq<Event>)
    requires SleepsInRange(a) && SleepsInRange(b)
    ensures SleepsInRange(a + b)
  {
    forall k | 0 <= k < |a + b| && (a + b)[k].Slept?
      ensures 5 <= (a + b)[k].seconds <= 9
    {
      if k >= |a| {
        assert (a + b)[k] == b[k - |a|];
      }
    }
  }

  // ---------------------------------------------------------------------
  // Errors of the session

  /** `GoogleDriveSessionError` as raised by `handle_googledrive_errors`
      and by the exhausted retry loops, plus the `UnboundLocalError` raised
      when a loop over no path tokens leaves its result unassigned. */
  datatype DriveError =
    | ServiceError(context: string, reason: string)
    | MaxAttemptsReached(operation: string)
    | Unbound(variable: string)

  function ErrorMessage(e: DriveError): string {
    match e
    case ServiceError(context, reason) => "Googledrive " + context + " error : " + reason
    case MaxAttemptsReached(operation) =>
      "Max number of attempts reached in Google Drive directory " + operation + " operation"
    case Unbound(variable) => "local variable '" + variable + "' referenced before assignment"
  }

  /** 403, 500 and 503 are retried after a sleep. */
  predicate IsTransient(status: int) {
    status == 403 || status == 500 || status == 503
  }

  /** The reason reported for a non-transient error: the JSON reason, or
      "" when the body is not JSON. */
  function ReasonOf(err: HttpError): string {
    if err.jsonReason.Some? then err.jsonReason.value else ""
  }

  /** `handle_googledrive_errors`: sleep and return for a transient status,
      raise with the reason otherwise. */
  function HandleErrors(d: Remote, err: HttpError, context: string): (s: Step<Result<(), DriveError>>)
    ensures s.result.Ok? <==> IsTransient(err.status)
    ensures s.result.Err? ==> s.result.error == ServiceError(context, ReasonOf(err)) && s.drive == d
    ensures s.result.Ok? ==> s.drive == SleepRandom(d)
  {
    if IsTransient(err.status) then Step(Ok(()), SleepRandom(d))
    else Step(Err(ServiceError(context, ReasonOf(err))), d)
  }
}

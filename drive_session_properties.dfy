/** Properties of the session operations: how the retry loops end, what
    the paged listing returns, the path walker's answers, and how every
    operation extends the service log. */
module DriveSessionProperties {
  import opened Wrappers
  import opened Strings
  import opened DrivePaths
  import opened DriveUtils
  import opened DriveRemote
  import opened DriveSession

  // ---------------------------------------------------------------------
  // The log only grows, and every sleep added lasts 5 to 9 seconds

  /** `b`'s log is `a`'s followed by events whose sleeps are in range. */
  predicate Extends(a: Remote, b: Remote) {
    && |a.log| <= |b.log|
    && b.log[..|a.log|] == a.log
    && SleepsInRange(b.log[|a.log|..])
  }

  lemma ExtendsByOne(d: Remote, e: Event, d': Remote)
    requires d'.log == d.log + [e]
    requires e.Slept? ==> 5 <= e.seconds <= 9
    ensures Extends(d, d')
  {
    assert d'.log[..|d.log|] == d.log;
    assert d'.log[|d.log|..] == [e];
  }

  lemma ExtendsTrans(a: Remote, b: Remote, c: Remote)
    requires Extends(a, b) && Extends(b, c)
    ensures Extends(a, c)
  {
    var x, y := b.log[|a.log|..], c.log[|b.log|..];
    assert c.log == b.log + y;
    assert b.log == a.log + x;
    assert c.log[..|a.log|] == a.log;
    assert c.log[|a.log|..] == x + y;
    SleepsInRangeAppend(x, y);
  }

  lemma ExtendsRefl(d: Remote)
    ensures Extends(d, d)
  {
    assert d.log[|d.log|..] == [];
  }

  /** A log whose sleeps are in range keeps them in range when extended. */
  lemma ExtendsKeepsSleeps(a: Remote, b: Remote)
    requires Extends(a, b) && SleepsInRange(a.log)
    ensures SleepsInRange(b.log)
  {
    assert b.log == a.log + b.log[|a.log|..];
    SleepsInRangeAppend(a.log, b.log[|a.log|..]);
  }

  lemma HandleErrorsExtends(d: Remote, err: HttpError, context: string)
    ensures Extends(d, HandleErrors(d, err, context).drive)
  {
    if IsTransient(err.status) {
      var x: Draw := if d.draws == [] then 0 else d.draws[0];
      ExtendsByOne(d, Slept(5 + x as int), SleepRandom(d));
    } else {
      ExtendsRefl(d);
    }
  }

  lemma {:induction false} ListPagesExtends(d: Remote, query: string, pageToken: Option<string>)
    ensures Extends(d, ListPages(d, query, pageToken).drive)
    decreases |d.listReplies|
  {
    var call := ExecuteList(d, query, pageToken);
    ExtendsByOne(d, Call(ListRequest(query, pageToken)), call.drive);
    ListPagesUnfold(d, query, pageToken);
    if call.result.Ok? && Truthy(call.result.value.nextPageToken) {
      ListPagesExtends(call.drive, query, call.result.value.nextPageToken);
      ExtendsTrans(d, call.drive, ListPages(call.drive, query, call.result.value.nextPageToken).drive);
    }
  }

  lemma {:induction false} ListAttemptsExtends(d: Remote, query: string, attempts: nat)
    ensures Extends(d, ListAttempts(d, query, attempts).drive)
    decreases MaxAttempts - attempts
  {
    if attempts >= MaxAttempts {
      ExtendsRefl(d);
    } else {
      var pages := ListPages(d, query, None);
      ListPagesExtends(d, query, None);
      if pages.result.Err? {
        var handled := HandleErrors(pages.drive, pages.result.error, "list");
        HandleErrorsExtends(pages.drive, pages.result.error, "list");
        ExtendsTrans(d, pages.drive, handled.drive);
        if handled.result.Ok? {
          ListAttemptsExtends(handled.drive, query, attempts + 1);
          ExtendsTrans(d, handled.drive, ListAttempts(handled.drive, query, attempts + 1).drive);
        }
      }
    }
  }

  lemma {:induction false} CreateAttemptsExtends(d: Remote, body: Metadata, media: Option<Media>, attempts: nat)
    ensures Extends(d, CreateAttempts(d, body, media, attempts).drive)
    decreases MaxAttempts - attempts
  {
    if attempts >= MaxAttempts {
      ExtendsRefl(d);
    } else {
      var call := ExecuteCreate(d, body, media);
      ExtendsByOne(d, Call(CreateRequest(body, media)), call.drive);
      if call.result.Err? {
        var handled := HandleErrors(call.drive, call.result.error, "create");
        HandleErrorsExtends(call.drive, call.result.error, "create");
        ExtendsTrans(d, call.drive, handled.drive);
        if handled.result.Ok? {
          CreateAttemptsExtends(handled.drive, body, media, attempts + 1);
          ExtendsTrans(d, handled.drive, CreateAttempts(handled.drive, body, media, attempts + 1).drive);
        }
      }
    }
  }

  lemma {:induction false} UpdateAttemptsExtends(d: Remote, fileId: string, body: Metadata, media: Option<Media>,
                                                 parentId: Option<string>, attempts: nat)
    ensures Extends(d, UpdateAttempts(d, fileId, body, media, parentId, attempts).drive)
    decreases MaxAttempts - attempts
  {
    if attempts >= MaxAttempts {
      ExtendsRefl(d);
    } else {
      var call := ExecuteUpdate(d, fileId, body, media);
      ExtendsByOne(d, Call(UpdateRequest(fileId, body, media)), call.drive);
      if call.result.Err? {
        if call.result.error.status == 404 {
          CreateAttemptsExtends(call.drive, CreateBody(body, parentId), media, 0);
          ExtendsTrans(d, call.drive, Create(call.drive, body, media, parentId).drive);
        } else {
          var handled := HandleErrors(call.drive, call.result.error, "update");
          HandleErrorsExtends(call.drive, call.result.error, "update");
          ExtendsTrans(d, call.drive, handled.drive);
          if handled.result.Ok? {
            UpdateAttemptsExtends(handled.drive, fileId, body, media, parentId, attempts + 1);
            ExtendsTrans(d, handled.drive, UpdateAttempts(handled.drive, fileId, body, media, parentId, attempts + 1).drive);
          }
        }
      }
    }
  }

  lemma {:induction false} DeleteAttemptsExtends(d: Remote, item: DriveItem, parentId: Option<string>, attempts: nat)
    ensures Extends(d, DeleteAttempts(d, item, parentId, attempts).drive)
    decreases MaxAttempts - attempts
  {
    if attempts >= MaxAttempts {
      ExtendsRefl(d);
    } else {
      var call := DeleteCall(d, item, parentId);
      if DeletesOutright(item, parentId) {
        ExtendsByOne(d, Call(DeleteRequest(item.id)), call.drive);
      } else {
        ExtendsByOne(d, Call(RemoveParentRequest(item.id, parentId.value)), call.drive);
      }
      if call.result.None? {
        DeleteAttemptsExtends(call.drive, item, parentId, attempts + 1);
        ExtendsTrans(d, call.drive, DeleteAttempts(call.drive, item, parentId, attempts + 1).drive);
      } else if call.result.value.status != 404 {
        var handled := HandleErrors(call.drive, call.result.value, "delete");
        HandleErrorsExtends(call.drive, call.result.value, "delete");
        ExtendsTrans(d, call.drive, handled.drive);
        if handled.result.Ok? {
          DeleteAttemptsExtends(handled.drive, item, parentId, attempts + 1);
          ExtendsTrans(d, handled.drive, DeleteAttempts(handled.drive, item, parentId, attempts + 1).drive);
        }
      }
    }
  }

  /** Whatever the service answers, the retry loops only append to the log,
      and every sleep they add lasts 5 to 9 seconds. */
  lemma RetryLoopsKeepSleepsInRange(d: Remote, query: string, fileId: string, body: Metadata, media: Option<Media>,
                                    parentId: Option<string>, item: DriveItem)
    requires SleepsInRange(d.log)
    ensures SleepsInRange(List(d, query).drive.log)
    ensures SleepsInRange(Create(d, body, media, parentId).drive.log)
    ensures SleepsInRange(Update(d, fileId, body, media, parentId).drive.log)
    ensures SleepsInRange(Delete(d, item, parentId).drive.log)
  {
    ListAttemptsExtends(d, query, 0);
    ExtendsKeepsSleeps(d, List(d, query).drive);
    CreateAttemptsExtends(d, CreateBody(body, parentId), media, 0);
    ExtendsKeepsSleeps(d, Create(d, body, media, parentId).drive);
    UpdateAttemptsExtends(d, fileId, body, media, parentId, 0);
    ExtendsKeepsSleeps(d, Update(d, fileId, body, media, parentId).drive);
    DeleteAttemptsExtends(d, item, parentId, 0);
    ExtendsKeepsSleeps(d, Delete(d, item, parentId).drive);
  }

  // ---------------------------------------------------------------------
  // Retry exhaustion: five transient failures raise "Max number of attempts"

  /** The next `n` replies of a script (or the 503 of an exhausted one) are
      all transient failures. */
  predicate TransientFailures<T>(replies: seq<Result<T, HttpError>>, n: nat) {
    forall k :: 0 <= k < |replies| && k < n ==> replies[k].Err? && IsTransient(replies[k].error.status)
  }

  lemma TransientFailuresRest<T>(replies: seq<Result<T, HttpError>>, n: nat)
    requires TransientFailures(replies, n + 1)
    ensures TransientFailures(Rest(replies), n)
  {
    if replies != [] {
      forall k | 0 <= k < |Rest(replies)| && k < n
        ensures Rest(replies)[k].Err? && IsTransient(Rest(replies)[k].error.status)
      {
        assert Rest(replies)[k] == replies[k + 1];
      }
    }
  }

  lemma TransientFailuresNext<T>(replies: seq<Result<T, HttpError>>, n: nat)
    requires n > 0 && TransientFailures(replies, n)
    ensures Next(replies).Err? && IsTransient(Next(replies).error.status)
  {
    if replies != [] {
      assert replies[0].Err? && IsTransient(replies[0].error.status);
    }
  }

  lemma CountOne(log: seq<Event>, e: Event)
    ensures CallCount(log + [e]) == CallCount(log) + (if e.Call? then 1 else 0)
    ensures SleepCount(log + [e]) == SleepCount(log) + (if e.Slept? then 1 else 0)
  {
    assert (log + [e])[..|log|] == log;
  }

  /** The log after a failed call that is retried: one call and one sleep more. */
  lemma RetryCounts(d: Remote, r: Request, d': Remote)
    requires d'.log == d.log + [Call(r)]
    ensures CallCount(SleepRandom(d').log) == CallCount(d.log) + 1
    ensures SleepCount(SleepRandom(d').log) == SleepCount(d.log) + 1
  {
    var x: Draw := if d'.draws == [] then 0 else d'.draws[0];
    CountOne(d.log, Call(r));
    CountOne(d'.log, Slept(5 + x as int));
  }

  /** One pass of the list loop on a transient failure of its first page:
      it sleeps and starts again, with one call and one sleep more. */
  lemma ListPass(d: Remote, query: string, attempts: nat)
    requires attempts < MaxAttempts && TransientFailures(d.listReplies, MaxAttempts - attempts)
    ensures var next := SleepRandom(ExecuteList(d, query, None).drive);
      && ListAttempts(d, query, attempts) == ListAttempts(next, query, attempts + 1)
      && CallCount(next.log) == CallCount(d.log) + 1
      && SleepCount(next.log) == SleepCount(d.log) + 1
      && TransientFailures(next.listReplies, MaxAttempts - attempts - 1)
  {
    var call := ExecuteList(d, query, None);
    TransientFailuresNext(d.listReplies, MaxAttempts - attempts);
    ListPagesUnfold(d, query, None);
    assert call.result == Next(d.listReplies);
    assert HandleErrors(call.drive, call.result.error, "list") == Step(Ok(()), SleepRandom(call.drive));
    RetryCounts(d, ListRequest(query, None), call.drive);
    TransientFailuresRest(d.listReplies, MaxAttempts - attempts - 1);
    assert SleepRandom(call.drive).listReplies == Rest(d.listReplies);
  }

  /** `googledrive_list` when every attempt fails transiently: one call and
      one sleep per remaining attempt, then "Max number of attempts". */
  lemma {:induction false} ListGivesUp(d: Remote, query: string, attempts: nat)
    requires attempts <= MaxAttempts && TransientFailures(d.listReplies, MaxAttempts - attempts)
    ensures var s := ListAttempts(d, query, attempts);
      && s.result == Err(MaxAttemptsReached("list"))
      && CallCount(s.drive.log) == CallCount(d.log) + (MaxAttempts - attempts)
      && SleepCount(s.drive.log) == SleepCount(d.log) + (MaxAttempts - attempts)
    decreases MaxAttempts - attempts
  {
    if attempts < MaxAttempts {
      ListPass(d, query, attempts);
      ListGivesUp(SleepRandom(ExecuteList(d, query, None).drive), query, attempts + 1);
    }
  }

  /** One pass of the create loop on a transient failure: it sleeps and
      tries again, with one call and one sleep more. */
  lemma CreatePass(d: Remote, body: Metadata, media: Option<Media>, attempts: nat)
    requires attempts < MaxAttempts && TransientFailures(d.createReplies, MaxAttempts - attempts)
    ensures var next := SleepRandom(ExecuteCreate(d, body, media).drive);
      && CreateAttempts(d, body, media, attempts) == CreateAttempts(next, body, media, attempts + 1)
      && CallCount(next.log) == CallCount(d.log) + 1
      && SleepCount(next.log) == SleepCount(d.log) + 1
      && TransientFailures(next.createReplies, MaxAttempts - attempts - 1)
  {
    var call := ExecuteCreate(d, body, media);
    TransientFailuresNext(d.createReplies, MaxAttempts - attempts);
    assert call.result == Next(d.createReplies);
    assert HandleErrors(call.drive, call.result.error, "create") == Step(Ok(()), SleepRandom(call.drive));
    RetryCounts(d, CreateRequest(body, media), call.drive);
    TransientFailuresRest(d.createReplies, MaxAttempts - attempts - 1);
    assert SleepRandom(call.drive).createReplies == Rest(d.createReplies);
  }

  lemma {:induction false} CreateGivesUp(d: Remote, body: Metadata, media: Option<Media>, attempts: nat)
    requires attempts <= MaxAttempts && TransientFailures(d.createReplies, MaxAttempts - attempts)
    ensures var s := CreateAttempts(d, body, media, attempts);
      && s.result == Err(MaxAttemptsReached("create"))
      && CallCount(s.drive.log) == CallCount(d.log) + (MaxAttempts - attempts)
      && SleepCount(s.drive.log) == SleepCount(d.log) + (MaxAttempts - attempts)
    decreases MaxAttempts - attempts
  {
    if attempts < MaxAttempts {
      CreatePass(d, body, media, attempts);
      CreateGivesUp(SleepRandom(ExecuteCreate(d, body, media).drive), body, media, attempts + 1);
    }
  }

  /** One pass of the update loop on a transient failure, as for create. */
  lemma UpdatePass(d: Remote, fileId: string, body: Metadata, media: Option<Media>,
                   parentId: Option<string>, attempts: nat)
    requires attempts < MaxAttempts && TransientFailures(d.updateReplies, MaxAttempts - attempts)
    ensures var next := SleepRandom(ExecuteUpdate(d, fileId, body, media).drive);
      && UpdateAttempts(d, fileId, body, media, parentId, attempts)
         == UpdateAttempts(next, fileId, body, media, parentId, attempts + 1)
      && CallCount(next.log) == CallCount(d.log) + 1
      && SleepCount(next.log) == SleepCount(d.log) + 1
      && TransientFailures(next.updateReplies, MaxAttempts - attempts - 1)
  {
    var call := ExecuteUpdate(d, fileId, body, media);
    TransientFailuresNext(d.updateReplies, MaxAttempts - attempts);
    assert call.result == Next(d.updateReplies);
    assert HandleErrors(call.drive, call.result.error, "update") == Step(Ok(()), SleepRandom(call.drive));
    RetryCounts(d, UpdateRequest(fileId, body, media), call.drive);
    TransientFailuresRest(d.updateReplies, MaxAttempts - attempts - 1);
    assert SleepRandom(call.drive).updateReplies == Rest(d.updateReplies);
  }

  lemma {:induction false} UpdateGivesUp(d: Remote, fileId: string, body: Metadata, media: Option<Media>,
                                         parentId: Option<string>, attempts: nat)
    requires attempts <= MaxAttempts && TransientFailures(d.updateReplies, MaxAttempts - attempts)
    ensures var s := UpdateAttempts(d, fileId, body, media, parentId, attempts);
      && s.result == Err(MaxAttemptsReached("update"))
      && CallCount(s.drive.log) == CallCount(d.log) + (MaxAttempts - attempts)
      && SleepCount(s.drive.log) == SleepCount(d.log) + (MaxAttempts - attempts)
    decreases MaxAttempts - attempts
  {
    if attempts < MaxAttempts {
      UpdatePass(d, fileId, body, media, parentId, attempts);
      UpdateGivesUp(SleepRandom(ExecuteUpdate(d, fileId, body, media).drive), fileId, body, media, parentId, attempts + 1);
    }
  }

  /** The next `n` calls of `googledrive_delete` neither answer 404 nor fail
      for good: each succeeds or fails transiently. */
  predicate DeleteKeepsTrying(d: Remote, item: DriveItem, parentId: Option<string>, n: nat) {
    if DeletesOutright(item, parentId) then
      forall k :: 0 <= k < |d.deleteReplies| && k < n ==>
        d.deleteReplies[k].None? || IsTransient(d.deleteReplies[k].value.status)
    else
      forall k :: 0 <= k < |d.updateReplies| && k < n ==>
        d.updateReplies[k].Ok? || IsTransient(d.updateReplies[k].error.status)
  }

  /** One pass of the delete loop under `DeleteKeepsTrying`: it goes on,
      with one more call, and the next passes keep trying. */
  lemma DeleteStep(d: Remote, item: DriveItem, parentId: Option<string>, n: nat)
    requires DeleteKeepsTrying(d, item, parentId, n + 1)
    ensures var call := DeleteCall(d, item, parentId);
      && (call.result.None? || IsTransient(call.result.value.status))
      && CallCount(call.drive.log) == CallCount(d.log) + 1
      && SleepCount(call.drive.log) == SleepCount(d.log)
      && DeleteKeepsTrying(call.drive, item, parentId, n)
  {
    var call := DeleteCall(d, item, parentId);
    if DeletesOutright(item, parentId) {
      CountOne(d.log, Call(DeleteRequest(item.id)));
      if d.deleteReplies != [] {
        assert d.deleteReplies[0].None? || IsTransient(d.deleteReplies[0].value.status);
        forall k | 0 <= k < |call.drive.deleteReplies| && k < n
          ensures call.drive.deleteReplies[k].None? || IsTransient(call.drive.deleteReplies[k].value.status)
        {
          assert call.drive.deleteReplies[k] == d.deleteReplies[k + 1];
        }
      }
    } else {
      CountOne(d.log, Call(RemoveParentRequest(item.id, parentId.value)));
      if d.updateReplies != [] {
        assert d.updateReplies[0].Ok? || IsTransient(d.updateReplies[0].error.status);
        forall k | 0 <= k < |call.drive.updateReplies| && k < n
          ensures call.drive.updateReplies[k].Ok? || IsTransient(call.drive.updateReplies[k].error.status)
        {
          assert call.drive.updateReplies[k] == d.updateReplies[k + 1];
        }
      }
    }
  }

  lemma SleepKeepsTrying(d: Remote, item: DriveItem, parentId: Option<string>, n: nat)
    requires DeleteKeepsTrying(d, item, parentId, n)
    ensures DeleteKeepsTrying(SleepRandom(d), item, parentId, n)
  {
    assert SleepRandom(d).deleteReplies == d.deleteReplies && SleepRandom(d).updateReplies == d.updateReplies;
  }

  /** The service after one pass of the delete loop that goes on. */
  function AfterDeletePass(d: Remote, item: DriveItem, parentId: Option<string>): Remote {
    var call := DeleteCall(d, item, parentId);
    if call.result.None? then call.drive else SleepRandom(call.drive)
  }

  lemma DeletePass(d: Remote, item: DriveItem, parentId: Option<string>, attempts: nat)
    requires attempts < MaxAttempts && DeleteKeepsTrying(d, item, parentId, MaxAttempts - attempts)
    ensures var next := AfterDeletePass(d, item, parentId);
      && DeleteAttempts(d, item, parentId, attempts) == DeleteAttempts(next, item, parentId, attempts + 1)
      && CallCount(next.log) == CallCount(d.log) + 1
      && DeleteKeepsTrying(next, item, parentId, MaxAttempts - attempts - 1)
  {
    var call := DeleteCall(d, item, parentId);
    DeleteStep(d, item, parentId, MaxAttempts - attempts - 1);
    if call.result.Some? {
      var x: Draw := if call.drive.draws == [] then 0 else call.drive.draws[0];
      CountOne(call.drive.log, Slept(5 + x as int));
      SleepKeepsTrying(call.drive, item, parentId, MaxAttempts - attempts - 1);
    }
  }

  /** A success does not leave the loop of `googledrive_delete`: without a
      404 or a lasting failure it makes one call per remaining attempt and
      ends in "Max number of attempts". */
  lemma {:induction false} DeleteGivesUp(d: Remote, item: DriveItem, parentId: Option<string>, attempts: nat)
    requires attempts <= MaxAttempts && DeleteKeepsTrying(d, item, parentId, MaxAttempts - attempts)
    ensures var s := DeleteAttempts(d, item, parentId, attempts);
      && s.result == Err(MaxAttemptsReached("delete"))
      && CallCount(s.drive.log) == CallCount(d.log) + (MaxAttempts - attempts)
    decreases MaxAttempts - attempts
  {
    if attempts < MaxAttempts {
      DeletePass(d, item, parentId, attempts);
      DeleteGivesUp(AfterDeletePass(d, item, parentId), item, parentId, attempts + 1);
    }
  }

  // ---------------------------------------------------------------------
  // A lasting failure raises at once with its reason

  lemma ListStopsOnLastingError(d: Remote, query: string)
    requires d.listReplies != [] && d.listReplies[0].Err? && !IsTransient(d.listReplies[0].error.status)
    ensures List(d, query)
            == Step(Err(ServiceError("list", ReasonOf(d.listReplies[0].error))), ExecuteList(d, query, None).drive)
  {
    ListPagesUnfold(d, query, None);
  }

  lemma CreateStopsOnLastingError(d: Remote, body: Metadata, media: Option<Media>, parentId: Option<string>)
    requires d.createReplies != [] && d.createReplies[0].Err? && !IsTransient(d.createReplies[0].error.status)
    ensures Create(d, body, media, parentId)
            == Step(Err(ServiceError("create", ReasonOf(d.createReplies[0].error))),
                    ExecuteCreate(d, CreateBody(body, parentId), media).drive)
  {
  }

  lemma UpdateStopsOnLastingError(d: Remote, fileId: string, body: Metadata, media: Option<Media>, parentId: Option<string>)
    requires d.updateReplies != [] && d.updateReplies[0].Err?
    requires !IsTransient(d.updateReplies[0].error.status) && d.updateReplies[0].error.status != 404
    ensures Update(d, fileId, body, media, parentId)
            == Step(Err(ServiceError("update", ReasonOf(d.updateReplies[0].error))),
                    ExecuteUpdate(d, fileId, body, media).drive)
  {
  }

  /** A lasting error (neither transient nor 404) from the first delete
      request, whichever request the item calls for, raises at once with
      its reason. */
  lemma DeleteStopsOnLastingError(d: Remote, item: DriveItem, parentId: Option<string>)
    requires DeletesOutright(item, parentId) ==>
      && d.deleteReplies != [] && d.deleteReplies[0].Some?
      && !IsTransient(d.deleteReplies[0].value.status) && d.deleteReplies[0].value.status != 404
    requires !DeletesOutright(item, parentId) ==>
      && d.updateReplies != [] && d.updateReplies[0].Err?
      && !IsTransient(d.updateReplies[0].error.status) && d.updateReplies[0].error.status != 404
    ensures var err := if DeletesOutright(item, parentId) then d.deleteReplies[0].value else d.updateReplies[0].error;
      && (DeletesOutright(item, parentId) ==>
            Delete(d, item, parentId) == Step(Err(ServiceError("delete", ReasonOf(err))), ExecuteDelete(d, item.id).drive))
      && (!DeletesOutright(item, parentId) ==>
            Delete(d, item, parentId)
            == Step(Err(ServiceError("delete", ReasonOf(err))), ExecuteRemoveParent(d, item.id, parentId.value).drive))
  {
  }

  /** A 404 ends `googledrive_delete` normally. */
  lemma DeleteNotFoundIsDone(d: Remote, item: DriveItem, parentId: Option<string>)
    requires DeleteCall(d, item, parentId).result.Some? && DeleteCall(d, item, parentId).result.value.status == 404
    ensures Delete(d, item, parentId) == Step(Ok(()), DeleteCall(d, item, parentId).drive)
  {
  }

  /** `googledrive_delete` deletes outright when the item has one parent or
      no parent is named, and otherwise detaches it from `parent_id` only. */
  lemma DeleteRequestChoice(d: Remote, item: DriveItem, parentId: Option<string>)
    ensures var call := DeleteCall(d, item, parentId);
      call.drive.log == d.log + [Call(if |item.parents| == 1 || parentId.None? then DeleteRequest(item.id)
                                      else RemoveParentRequest(item.id, parentId.value))]
  {
  }

  // ---------------------------------------------------------------------
  // The paged listing reads the script page by page

  /** What one listing attempt gathers from a script of replies: the files
      of the pages up to the first without a next-page token, and how many
      replies those pages take; `None` when a failure comes first. */
  datatype PagesRead = PagesRead(files: seq<DriveItem>, consumed: nat)

  function PagesRun(replies: seq<Result<Page, HttpError>>): (r: Option<PagesRead>)
    ensures r.Some? ==> 1 <= r.value.consumed <= |replies|
  {
    if replies == [] || replies[0].Err? then None
    else
      var page := replies[0].value;
      if !Truthy(page.nextPageToken) then Some(PagesRead(page.files, 1))
      else
        match PagesRun(replies[1..])
        case None => None
        case Some(rest) => Some(PagesRead(page.files + rest.files, rest.consumed + 1))
  }

  /** An attempt succeeds exactly when the script holds a complete run of
      pages; it then returns their files in order and consumes just those
      replies. */
  lemma {:induction false} ListPagesReadsScript(d: Remote, query: string, pageToken: Option<string>)
    ensures var s := ListPages(d, query, pageToken);
      var run := PagesRun(d.listReplies);
      && (s.result.Ok? <==> run.Some?)
      && (run.Some? ==> s.result.value == run.value.files && s.drive.listReplies == d.listReplies[run.value.consumed..])
    decreases |d.listReplies|
  {
    ListPagesUnfold(d, query, pageToken);
    if d.listReplies != [] && d.listReplies[0].Ok? {
      var page := d.listReplies[0].value;
      var call := ExecuteList(d, query, pageToken);
      assert call.drive.listReplies == d.listReplies[1..];
      if Truthy(page.nextPageToken) {
        ListPagesReadsScript(call.drive, query, page.nextPageToken);
        var rest := PagesRun(d.listReplies[1..]);
        if rest.Some? {
          assert d.listReplies[1..][rest.value.consumed..] == d.listReplies[rest.value.consumed + 1..];
        }
      }
    }
  }

  /** The first `k` replies are pages that ask for a next page, and the
      reply after them (or the 503 of an exhausted script) is a failure. */
  predicate FailsAfterPages(replies: seq<Result<Page, HttpError>>, k: nat) {
    && k <= |replies|
    && (forall i :: 0 <= i < k ==> replies[i].Ok? && Truthy(replies[i].value.nextPageToken))
    && (k < |replies| ==> replies[k].Err?)
  }

  /** A pass that meets a failure after `k` pages ends with that failure,
      having consumed the `k` pages and the failing reply. */
  lemma {:induction false} ListPagesFailsAt(d: Remote, query: string, pageToken: Option<string>, k: nat)
    requires FailsAfterPages(d.listReplies, k)
    ensures var s := ListPages(d, query, pageToken);
      && Next(d.listReplies[k..]).Err?
      && s.result == Err(Next(d.listReplies[k..]).error)
      && s.drive.listReplies == Rest(d.listReplies[k..])
    decreases k
  {
    ListPagesUnfold(d, query, pageToken);
    if k > 0 {
      var call := ExecuteList(d, query, pageToken);
      var tail := d.listReplies[1..];
      assert call.drive.listReplies == tail;
      forall i | 0 <= i < k - 1
        ensures tail[i].Ok? && Truthy(tail[i].value.nextPageToken)
      {
        assert tail[i] == d.listReplies[i + 1];
      }
      assert tail[k - 1..] == d.listReplies[k..];
      ListPagesFailsAt(call.drive, query, d.listReplies[0].value.nextPageToken, k - 1);
    }
  }

  /** A transient failure at any page of a pass drops what the pass has
      gathered: the listing sleeps and starts again from the first page,
      on the replies after the failure, so a complete run of pages there
      is all it returns. */
  lemma ListRetryRestarts(d: Remote, query: string, k: nat)
    requires FailsAfterPages(d.listReplies, k)
    requires IsTransient(Next(d.listReplies[k..]).error.status)
    ensures var failed := ListPages(d, query, None);
      && failed.drive.listReplies == Rest(d.listReplies[k..])
      && List(d, query) == ListAttempts(SleepRandom(failed.drive), query, 1)
    ensures var rest := PagesRun(Rest(d.listReplies[k..]));
      rest.Some? ==> List(d, query).result == Ok(rest.value.files)
  {
    var failed := ListPages(d, query, None);
    ListPagesFailsAt(d, query, None, k);
    assert HandleErrors(failed.drive, failed.result.error, "list") == Step(Ok(()), SleepRandom(failed.drive));
    var next := SleepRandom(failed.drive);
    assert next.listReplies == Rest(d.listReplies[k..]);
    ListPagesReadsScript(next, query, None);
  }

  // ---------------------------------------------------------------------
  // An update of a missing file creates it

  /** Creating touches only the create script (and the draws and the log). */
  lemma {:induction false} CreateKeepsOtherScripts(d: Remote, body: Metadata, media: Option<Media>, attempts: nat)
    ensures var s := CreateAttempts(d, body, media, attempts).drive;
      s.listReplies == d.listReplies && s.updateReplies == d.updateReplies && s.deleteReplies == d.deleteReplies
    decreases MaxAttempts - attempts
  {
    if attempts < MaxAttempts {
      var call := ExecuteCreate(d, body, media);
      if call.result.Err? {
        var handled := HandleErrors(call.drive, call.result.error, "create");
        if handled.result.Ok? {
          CreateKeepsOtherScripts(handled.drive, body, media, attempts + 1);
        }
      }
    }
  }

  /** A 404 from the first update call hands the same body, media and
      parent over to `googledrive_create`, once: creating never consumes an
      update reply, so no update follows it. */
  lemma UpdateNotFoundCreates(d: Remote, fileId: string, body: Metadata, media: Option<Media>, parentId: Option<string>)
    requires d.updateReplies != [] && d.updateReplies[0].Err? && d.updateReplies[0].error.status == 404
    ensures var call := ExecuteUpdate(d, fileId, body, media);
      && Update(d, fileId, body, media, parentId) == Create(call.drive, body, media, parentId)
      && Update(d, fileId, body, media, parentId).drive.updateReplies == d.updateReplies[1..]
  {
    var call := ExecuteUpdate(d, fileId, body, media);
    CreateKeepsOtherScripts(call.drive, CreateBody(body, parentId), media, 0);
  }

  // ---------------------------------------------------------------------
  // What a lookup asks of the service

  /** The events hold no call but listings (of `query`, when one is given). */
  predicate ListCalls(events: seq<Event>, query: Option<string>) {
    forall k :: 0 <= k < |events| && events[k].Call? ==>
      events[k].request.ListRequest? && (query.Some? ==> events[k].request.query == query.value)
  }

  /** From `a` to `b` the service was only asked for listings: the other
      scripts are untouched and the log grew by listings and sleeps. */
  predicate ListsOnly(a: Remote, b: Remote, query: Option<string>) {
    && Extends(a, b)
    && b.createReplies == a.createReplies && b.updateReplies == a.updateReplies && b.deleteReplies == a.deleteReplies
    && ListCalls(b.log[|a.log|..], query)
  }

  lemma ListsOnlyRefl(d: Remote, query: Option<string>)
    ensures ListsOnly(d, d, query)
  {
    ExtendsRefl(d);
  }

  lemma ListsOnlyTrans(a: Remote, b: Remote, c: Remote, query: Option<string>)
    requires ListsOnly(a, b, query) && ListsOnly(b, c, query)
    ensures ListsOnly(a, c, query)
  {
    ExtendsTrans(a, b, c);
    var x, y := b.log[|a.log|..], c.log[|b.log|..];
    assert c.log == b.log + y;
    assert b.log == a.log + x;
    assert c.log[|a.log|..] == x + y;
    forall k | 0 <= k < |x + y| && (x + y)[k].Call?
      ensures (x + y)[k].request.ListRequest? && (query.Some? ==> (x + y)[k].request.query == query.value)
    {
      if k < |x| {
        assert (x + y)[k] == x[k];
      } else {
        assert (x + y)[k] == y[k - |x|];
      }
    }
  }

  lemma ListsOnlyForget(a: Remote, b: Remote, query: string)
    requires ListsOnly(a, b, Some(query))
    ensures ListsOnly(a, b, None)
  {
  }

  lemma ListCallLists(d: Remote, query: string, pageToken: Option<string>)
    ensures ListsOnly(d, ExecuteList(d, query, pageToken).drive, Some(query))
  {
    var call := ExecuteList(d, query, pageToken);
    ExtendsByOne(d, Call(ListRequest(query, pageToken)), call.drive);
    assert call.drive.log[|d.log|..] == [Call(ListRequest(query, pageToken))];
  }

  lemma HandleErrorsLists(d: Remote, err: HttpError, context: string, query: Option<string>)
    ensures ListsOnly(d, HandleErrors(d, err, context).drive, query)
  {
    if IsTransient(err.status) {
      var x: Draw := if d.draws == [] then 0 else d.draws[0];
      ExtendsByOne(d, Slept(5 + x as int), SleepRandom(d));
      assert SleepRandom(d).log[|d.log|..] == [Slept(5 + x as int)];
    } else {
      ListsOnlyRefl(d, query);
    }
  }

  lemma {:induction false} ListPagesLists(d: Remote, query: string, pageToken: Option<string>)
    ensures ListsOnly(d, ListPages(d, query, pageToken).drive, Some(query))
    decreases |d.listReplies|
  {
    var call := ExecuteList(d, query, pageToken);
    ListCallLists(d, query, pageToken);
    ListPagesUnfold(d, query, pageToken);
    if call.result.Ok? && Truthy(call.result.value.nextPageToken) {
      var rest := ListPages(call.drive, query, call.result.value.nextPageToken);
      ListPagesLists(call.drive, query, call.result.value.nextPageToken);
      ResumeDrive(call.result.value.files, rest);
      ListsOnlyTrans(d, call.drive, rest.drive, Some(query));
    }
  }

  /** `googledrive_list` asks for nothing but pages of its query. */
  lemma {:induction false} ListAttemptsLists(d: Remote, query: string, attempts: nat)
    ensures ListsOnly(d, ListAttempts(d, query, attempts).drive, Some(query))
    decreases MaxAttempts - attempts
  {
    if attempts >= MaxAttempts {
      ListsOnlyRefl(d, Some(query));
    } else {
      var pages := ListPages(d, query, None);
      ListPagesLists(d, query, None);
      if pages.result.Err? {
        var handled := HandleErrors(pages.drive, pages.result.error, "list");
        HandleErrorsLists(pages.drive, pages.result.error, "list", Some(query));
        ListsOnlyTrans(d, pages.drive, handled.drive, Some(query));
        if handled.result.Ok? {
          ListAttemptsLists(handled.drive, query, attempts + 1);
          ListsOnlyTrans(d, handled.drive, ListAttempts(handled.drive, query, attempts + 1).drive, Some(query));
        }
      }
    }
  }

  /** One level of the walk lists the children of the current parents
      whose name contains the token, untrashed, and asks nothing else; its
      first request is the first page of that query. */
  lemma MatchingAsks(d: Remote, token: string, parentIds: seq<string>)
    ensures var query := Query(parentIds, None, Some(token), Some(false));
      var found := Matching(d, token, parentIds);
      && ListsOnly(d, found.drive, Some(query))
      && |found.drive.log| > |d.log| && found.drive.log[|d.log|] == Call(ListRequest(query, None))
  {
    var query := Query(parentIds, None, Some(token), Some(false));
    ListAttemptsLists(d, query, 0);
    ListFirstCall(d, query);
  }

  // ---------------------------------------------------------------------
  // Listing passes over a script of pages

  /** A request for the first page of a listing: one per pass. */
  predicate IsFirstPage(e: Event) {
    e.Call? && e.request.ListRequest? && e.request.pageToken.None?
  }

  /** The number of first-page requests in the log. */
  function FirstPages(log: seq<Event>): nat {
    if log == [] then 0 else FirstPages(log[..|log| - 1]) + (if IsFirstPage(log[|log| - 1]) then 1 else 0)
  }

  lemma FirstPagesOne(log: seq<Event>, e: Event)
    ensures FirstPages(log + [e]) == FirstPages(log) + (if IsFirstPage(e) then 1 else 0)
  {
    assert (log + [e])[..|log|] == log;
  }

  /** A pass started without a page token asks for one first page; the
      pages after it are asked for with the token of the previous one. */
  lemma {:induction false} ListPagesFirstPages(d: Remote, query: string, pageToken: Option<string>)
    ensures FirstPages(ListPages(d, query, pageToken).drive.log) == FirstPages(d.log) + (if pageToken.None? then 1 else 0)
    decreases |d.listReplies|
  {
    var call := ExecuteList(d, query, pageToken);
    FirstPagesOne(d.log, Call(ListRequest(query, pageToken)));
    ListPagesUnfold(d, query, pageToken);
    if call.result.Ok? && Truthy(call.result.value.nextPageToken) {
      var rest := ListPages(call.drive, query, call.result.value.nextPageToken);
      ListPagesFirstPages(call.drive, query, call.result.value.nextPageToken);
      ResumeDrive(call.result.value.files, rest);
    }
  }

  /** Every reply of the script is a page. */
  predicate AllPages(replies: seq<Result<Page, HttpError>>) {
    forall i :: 0 <= i < |replies| ==> replies[i].Ok?
  }

  /** The number of pages of the script that end a pass: those without a
      next-page token. */
  function Ends(replies: seq<Result<Page, HttpError>>): nat {
    if replies == [] then 0
    else (if replies[0].Ok? && !Truthy(replies[0].value.nextPageToken) then 1 else 0) + Ends(replies[1..])
  }

  /** A script of pages with an end holds a complete run, and what follows
      the run is a script of pages with one end fewer. */
  lemma {:induction false} RunOfPages(replies: seq<Result<Page, HttpError>>)
    requires AllPages(replies) && Ends(replies) >= 1
    ensures PagesRun(replies).Some?
    ensures var c := PagesRun(replies).value.consumed;
      AllPages(replies[c..]) && Ends(replies[c..]) == Ends(replies) - 1
  {
    var tail := replies[1..];
    assert replies[0].Ok?;
    assert AllPages(tail) by {
      forall i | 0 <= i < |tail| ensures tail[i].Ok? {
        assert tail[i] == replies[i + 1];
      }
    }
    if Truthy(replies[0].value.nextPageToken) {
      RunOfPages(tail);
      var c := PagesRun(tail).value.consumed;
      assert tail[c..] == replies[c + 1..];
    }
  }

  /** On a script of pages with an end, a listing is a single pass: it
      succeeds, asks for one first page, and leaves a script of pages with
      one end fewer. */
  lemma ListOnePass(d: Remote, query: string)
    requires AllPages(d.listReplies) && Ends(d.listReplies) >= 1
    ensures var s := List(d, query);
      && s.result.Ok?
      && AllPages(s.drive.listReplies) && Ends(s.drive.listReplies) == Ends(d.listReplies) - 1
      && FirstPages(s.drive.log) == FirstPages(d.log) + 1
  {
    ListPagesReadsScript(d, query, None);
    RunOfPages(d.listReplies);
    ListPagesFirstPages(d, query, None);
  }

  // ---------------------------------------------------------------------
  // The path walker

  /** A path of two or more tokens, when it resolves, resolves to a file
      named as its last component. */
  lemma ItemFromPathFindsLastName(d: Remote, rootId: string, path: string)
    requires |SplitSpec(path)| >= 2
    ensures var s := ItemFromPath(d, rootId, path);
      s.result.Ok? && s.result.value.Some? ==> s.result.value.value.name == SplitSpec(path)[|SplitSpec(path)| - 1]
  {
    var tokens := SplitSpec(path);
    SplitSpecShape(path);
    var last := tokens[|tokens| - 1];
    assert last != "" && SlashFree(last);
    assert last[0] != '/';
  }

  /** A "/" token is skipped without asking anything. */
  lemma WalkSkipsSlash(d: Remote, tokens: seq<string>, parentIds: seq<string>, files: Option<seq<DriveItem>>)
    requires files.Some? ==> files.value != []
    requires tokens != [] && tokens[0] == "/"
    ensures Walk(d, tokens, parentIds, files) == Walk(d, tokens[1..], parentIds, files)
  {
  }

  /** One level of the walk on a name token: one listing of the untrashed
      children of the current parents whose name contains the token. A
      failed listing raises; no exact match answers None at once, with no
      request for the later tokens; otherwise the ids of the files matched
      are the parents of the next level, and on the last token the first
      file matched is the answer. */
  lemma WalkLevel(d: Remote, tokens: seq<string>, parentIds: seq<string>, files: Option<seq<DriveItem>>)
    requires files.Some? ==> files.value != []
    requires tokens != [] && tokens[0] != "/"
    ensures var query := Query(parentIds, None, Some(tokens[0]), Some(false));
      var found := Matching(d, tokens[0], parentIds);
      var s := Walk(d, tokens, parentIds, files);
      && ListsOnly(d, found.drive, Some(query))
      && |found.drive.log| > |d.log| && found.drive.log[|d.log|] == Call(ListRequest(query, None))
      && (found.result.Err? ==> s == Step(Err(found.result.error), found.drive))
      && (found.result == Ok([]) ==> s == Step(Ok(None), found.drive))
      && (found.result.Ok? && found.result.value != [] ==>
            s == Walk(found.drive, tokens[1..], RemoveDuplicates(Ids(found.result.value)), Some(found.result.value)))
      && (found.result.Ok? && found.result.value != [] && |tokens| == 1 ==>
            s == Step(Ok(Some(found.result.value[0])), found.drive))
  {
    MatchingAsks(d, tokens[0], parentIds);
  }

  /** The walk asks the service for nothing but listings. */
  lemma {:induction false} WalkLists(d: Remote, tokens: seq<string>, parentIds: seq<string>, files: Option<seq<DriveItem>>)
    requires files.Some? ==> files.value != []
    ensures ListsOnly(d, Walk(d, tokens, parentIds, files).drive, None)
    decreases |tokens|
  {
    if tokens == [] {
      ListsOnlyRefl(d, None);
    } else if tokens[0] == "/" {
      WalkSkipsSlash(d, tokens, parentIds, files);
      WalkLists(d, tokens[1..], parentIds, files);
    } else {
      var found := Matching(d, tokens[0], parentIds);
      WalkLevel(d, tokens, parentIds, files);
      ListsOnlyForget(d, found.drive, Query(parentIds, None, Some(tokens[0]), Some(false)));
      if found.result.Ok? && found.result.value != [] {
        var next := RemoveDuplicates(Ids(found.result.value));
        WalkLists(found.drive, tokens[1..], next, Some(found.result.value));
        ListsOnlyTrans(d, found.drive, Walk(found.drive, tokens[1..], next, Some(found.result.value)).drive, None);
      }
    }
  }

  /** `get_item_from_path` asks the service for nothing but listings. */
  lemma ItemFromPathLists(d: Remote, rootId: string, path: string)
    ensures ListsOnly(d, ItemFromPath(d, rootId, path).drive, None)
  {
    if |SplitSpec(path)| == 1 {
      ListsOnlyRefl(d, None);
    } else {
      WalkLists(d, SplitSpec(path), [rootId], None);
    }
  }

  /** The number of tokens other than "/": the levels of the walk. */
  function NameCount(tokens: seq<string>): nat {
    if tokens == [] then 0 else (if tokens[0] == "/" then 0 else 1) + NameCount(tokens[1..])
  }

  /** With a script of pages and an end for every level, every level is one
      listing pass: the walk never fails for want of a token, makes at
      most one pass per name token, and exactly one per name token when it
      finds an item. */
  lemma {:induction false} WalkPasses(d: Remote, tokens: seq<string>, parentIds: seq<string>, files: Option<seq<DriveItem>>)
    requires files.Some? ==> files.value != []
    requires AllPages(d.listReplies) && Ends(d.listReplies) >= NameCount(tokens)
    ensures var s := Walk(d, tokens, parentIds, files);
      && (s.result.Err? ==> s.result == Err(Unbound("files")) && files.None? && NameCount(tokens) == 0)
      && FirstPages(s.drive.log) <= FirstPages(d.log) + NameCount(tokens)
      && (s.result.Ok? && s.result.value.Some? ==> FirstPages(s.drive.log) == FirstPages(d.log) + NameCount(tokens))
    decreases |tokens|
  {
    if tokens != [] {
      if tokens[0] == "/" {
        WalkSkipsSlash(d, tokens, parentIds, files);
        WalkPasses(d, tokens[1..], parentIds, files);
      } else {
        var found := Matching(d, tokens[0], parentIds);
        WalkLevel(d, tokens, parentIds, files);
        ListOnePass(d, Query(parentIds, None, Some(tokens[0]), Some(false)));
        if found.result.value != [] {
          WalkPasses(found.drive, tokens[1..], RemoveDuplicates(Ids(found.result.value)), Some(found.result.value));
        }
      }
    }
  }

  lemma {:induction false} NameCountOfName(tokens: seq<string>)
    requires tokens != [] && tokens[|tokens| - 1] != "/"
    ensures NameCount(tokens) >= 1
  {
    if tokens[0] == "/" {
      assert tokens[1..][|tokens| - 2] == tokens[|tokens| - 1];
      NameCountOfName(tokens[1..]);
    }
  }

  /** With a script of pages and an end for each name of the path, a path
      of two tokens or more resolves without error, with one listing pass
      per name when it finds an item and no more otherwise. */
  lemma ItemFromPathPasses(d: Remote, rootId: string, path: string)
    requires |SplitSpec(path)| >= 2
    requires AllPages(d.listReplies) && Ends(d.listReplies) >= NameCount(SplitSpec(path))
    ensures var s := ItemFromPath(d, rootId, path);
      && s.result.Ok?
      && FirstPages(s.drive.log) <= FirstPages(d.log) + NameCount(SplitSpec(path))
      && (s.result.value.Some? ==> FirstPages(s.drive.log) == FirstPages(d.log) + NameCount(SplitSpec(path)))
  {
    var tokens := SplitSpec(path);
    SplitSpecShape(path);
    var last := tokens[|tokens| - 1];
    assert last != "" && SlashFree(last);
    assert last[0] != '/';
    NameCountOfName(tokens);
    WalkPasses(d, tokens, [rootId], None);
  }

  /** A path of a single token (a run of slashes, or one relative name) is
      the root folder, and nothing is asked of the service. */
  lemma SingleTokenIsRoot(d: Remote, rootId: string, path: string)
    requires |SplitSpec(path)| == 1
    ensures ItemFromPath(d, rootId, path) == Step(Ok(Some(RootItem(rootId))), d)
    ensures RootItem(rootId).id == rootId && RootItem(rootId).name == "/" && IsDirectory(RootItem(rootId))
  {
  }

  lemma RootPathIsRoot(d: Remote, rootId: string)
    ensures ItemFromPath(d, rootId, "/") == Step(Ok(Some(RootItem(rootId))), d)
  {
    AllSlashesSpec("/");
  }

  /** The empty path leaves the loop's result unassigned. */
  lemma EmptyPathUnbound(d: Remote, rootId: string)
    ensures ItemFromPath(d, rootId, "") == Step(Err(Unbound("files")), d)
    ensures MakeDirectoryPath(d, rootId, "") == Step(Err(Unbound("new_directory_id")), d)
  {
    assert Pieces("") == [""];
    assert SplitSpec("") == [];
  }

  /** The only token of a single-token path names the path itself. */
  lemma SingleTokenSplitsToItself(path: string)
    requires |SplitSpec(path)| == 1
    ensures var t := SplitSpec(path)[0]; t != "" && SplitSpec(t) == [t]
  {
    var t := SplitSpec(path)[0];
    SplitSpecShape(path);
    if LeadingSlashes(path) > 0 {
      AllSlashesSpec(t);
    } else {
      SplitStepNoSlash(t);
      assert Pieces("") == [""];
      assert SplitSpec("") == [];
    }
  }

  /** `create_directory_from_path` of a single-token path answers the root
      id and creates nothing. */
  lemma MakeDirectoryPathSingle(d: Remote, rootId: string, path: string)
    requires |SplitSpec(path)| == 1
    ensures MakeDirectoryPath(d, rootId, path) == Step(Ok(rootId), d)
  {
    var t := SplitSpec(path)[0];
    SingleTokenSplitsToItself(path);
    assert PosixJoin("", t) == t by {
      assert "" + t == t;
    }
    assert ItemFromPath(d, rootId, t) == Step(Ok(Some(RootItem(rootId))), d);
    var segment := Segment(d, rootId, t, t, [rootId]);
    assert segment == Step(Ok(rootId), d);
    assert SplitSpec(path) == [t];
    assert [t][1..] == [];
    assert MakeDirectoryPath(d, rootId, path) == MakeDirectories(d, rootId, [t], "", [rootId], None);
    assert MakeDirectoryPath(d, rootId, path)
        == MakeDirectories(segment.drive, rootId, [], t, [rootId], Some(rootId));
  }

  /** One segment of `create_directory_from_path`: the lookup of the
      running path only lists; a lookup that raises stops the loop; a
      folder found gives its id without any other request; only a path that
      does not resolve creates a folder, whose first request names the
      token, the folder mimetype and the previous segment's ids as parents. */
  lemma SegmentCases(d: Remote, rootId: string, path: string, name: string, parentIds: seq<string>)
    ensures var found := ItemFromPath(d, rootId, path);
      var s := Segment(d, rootId, path, name, parentIds);
      var body := Metadata(name, Some(Folder), Some(parentIds));
      && ListsOnly(d, found.drive, None)
      && (found.result.Err? ==> s == Step(Err(found.result.error), found.drive))
      && (found.result.Ok? && found.result.value.Some? ==> s == Step(Ok(found.result.value.value.id), found.drive))
      && (found.result == Ok(None) ==>
            && s == Create(found.drive, body, None, None)
            && |s.drive.log| > |found.drive.log| && s.drive.log[|found.drive.log|] == Call(CreateRequest(body, None)))
  {
    var found := ItemFromPath(d, rootId, path);
    ItemFromPathLists(d, rootId, path);
    CreateFirstCall(found.drive, Metadata(name, Some(Folder), Some(parentIds)), None);
  }

  /** The running path after joining each token in turn. */
  function JoinAll(current: string, tokens: seq<string>): string
    decreases |tokens|
  {
    if tokens == [] then current else JoinAll(PosixJoin(current, tokens[0]), tokens[1..])
  }

  lemma {:induction false} JoinAllSnoc(current: string, tokens: seq<string>, t: string)
    ensures JoinAll(current, tokens + [t]) == PosixJoin(JoinAll(current, tokens), t)
    decreases |tokens|
  {
    if tokens == [] {
      assert [] + [t] == [t];
      assert [t][1..] == [];
    } else {
      assert (tokens + [t])[1..] == tokens[1..] + [t];
      JoinAllSnoc(PosixJoin(current, tokens[0]), tokens[1..], t);
    }
  }

  /** The loop of `create_directory_from_path`, one token more: a first
      token is a segment resolved from the starting parents; after an
      error nothing more is asked and the error stands; otherwise the new
      token is resolved at the running path joined with it, under the id
      the loop returned so far, and the whole answer is that segment's. */
  lemma {:induction false} MakeDirectoriesSnoc(d: Remote, rootId: string, tokens: seq<string>, current: string,
                                               parentIds: seq<string>, lastId: Option<string>, t: string)
    ensures var m := MakeDirectories(d, rootId, tokens, current, parentIds, lastId);
      MakeDirectories(d, rootId, tokens + [t], current, parentIds, lastId)
      == if tokens == [] then Segment(d, rootId, PosixJoin(current, t), t, parentIds)
         else if m.result.Err? then m
         else Segment(m.drive, rootId, PosixJoin(JoinAll(current, tokens), t), t, [m.result.value])
    decreases |tokens|
  {
    if tokens == [] {
      assert [] + [t] == [t];
      assert [t][1..] == [];
    } else {
      var path := PosixJoin(current, tokens[0]);
      var segment := Segment(d, rootId, path, tokens[0], parentIds);
      assert (tokens + [t])[0] == tokens[0];
      assert (tokens + [t])[1..] == tokens[1..] + [t];
      if segment.result.Ok? {
        var id := segment.result.value;
        MakeDirectoriesSnoc(segment.drive, rootId, tokens[1..], path, [id], Some(id), t);
      }
    }
  }

  /** A path of two tokens or more: the loop over all but the last token,
      then, unless that raised, the last token resolved under the id it
      returned, at the whole path joined back. */
  lemma MakeDirectoryPathLast(d: Remote, rootId: string, path: string)
    requires |SplitSpec(path)| >= 2
    ensures var tokens := SplitSpec(path);
      var init := tokens[..|tokens| - 1];
      var last := tokens[|tokens| - 1];
      var m := MakeDirectories(d, rootId, init, "", [rootId], None);
      MakeDirectoryPath(d, rootId, path)
      == if m.result.Err? then m
         else Segment(m.drive, rootId, JoinAll("", tokens), last, [m.result.value])
  {
    var tokens := SplitSpec(path);
    var init := tokens[..|tokens| - 1];
    var last := tokens[|tokens| - 1];
    assert init + [last] == tokens;
    MakeDirectoriesSnoc(d, rootId, init, "", [rootId], None, last);
    JoinAllSnoc("", init, last);
  }

  // ---------------------------------------------------------------------
  // The requests an upload sends

  lemma ExtendsKeepsEvent(a: Remote, b: Remote, i: nat)
    requires Extends(a, b) && i < |a.log|
    ensures i < |b.log| && b.log[i] == a.log[i]
  {
    assert b.log[..|a.log|][i] == b.log[i];
  }

  /** The first event of a listing is the request for its first page. */
  lemma ListFirstCall(d: Remote, query: string)
    ensures var s := List(d, query).drive;
      |s.log| > |d.log| && s.log[|d.log|] == Call(ListRequest(query, None))
  {
    var call := ExecuteList(d, query, None);
    ExtendsByOne(d, Call(ListRequest(query, None)), call.drive);
    ListPagesUnfold(d, query, None);
    var pages := ListPages(d, query, None);
    if call.result.Ok? && Truthy(call.result.value.nextPageToken) {
      ListPagesExtends(call.drive, query, call.result.value.nextPageToken);
      ResumeDrive(call.result.value.files, ListPages(call.drive, query, call.result.value.nextPageToken));
    } else {
      ExtendsRefl(call.drive);
    }
    assert Extends(call.drive, pages.drive);
    if pages.result.Err? {
      var handled := HandleErrors(pages.drive, pages.result.error, "list");
      HandleErrorsExtends(pages.drive, pages.result.error, "list");
      ExtendsTrans(call.drive, pages.drive, handled.drive);
      if handled.result.Ok? {
        ListAttemptsExtends(handled.drive, query, 1);
        ExtendsTrans(call.drive, handled.drive, ListAttempts(handled.drive, query, 1).drive);
      }
    }
    ExtendsKeepsEvent(call.drive, List(d, query).drive, |d.log|);
  }

  lemma ResumeDrive(files: seq<DriveItem>, s: Step<Result<seq<DriveItem>, HttpError>>)
    ensures Resume(files, s).drive == s.drive
  {
  }

  /** The first event of a create is the request with its body and media. */
  lemma CreateFirstCall(d: Remote, body: Metadata, media: Option<Media>)
    ensures var s := CreateAttempts(d, body, media, 0).drive;
      |s.log| > |d.log| && s.log[|d.log|] == Call(CreateRequest(body, media))
  {
    var call := ExecuteCreate(d, body, media);
    ExtendsByOne(d, Call(CreateRequest(body, media)), call.drive);
    if call.result.Err? {
      var handled := HandleErrors(call.drive, call.result.error, "create");
      HandleErrorsExtends(call.drive, call.result.error, "create");
      if handled.result.Ok? {
        CreateAttemptsExtends(handled.drive, body, media, 1);
        ExtendsTrans(call.drive, handled.drive, CreateAttempts(handled.drive, body, media, 1).drive);
      }
    } else {
      ExtendsRefl(call.drive);
    }
    ExtendsKeepsEvent(call.drive, CreateAttempts(d, body, media, 0).drive, |d.log|);
  }

  /** `googledrive_create` sends the caller's name and mimetype, with the
      parents replaced by `[parent_id]` when a non-empty parent is given
      and left as they are otherwise. */
  lemma CreateSendsParent(d: Remote, body: Metadata, media: Option<Media>, parentId: Option<string>)
    ensures var s := Create(d, body, media, parentId).drive;
      && |s.log| > |d.log|
      && s.log[|d.log|].Call? && s.log[|d.log|].request.CreateRequest?
      && var sent := s.log[|d.log|].request;
         && sent.media == media
         && sent.body.name == body.name && sent.body.mimeType == body.mimeType
         && (Truthy(parentId) ==> sent.body.parents == Some([parentId.value]))
         && (!Truthy(parentId) ==> sent.body == body)
  {
    CreateFirstCall(d, CreateBody(body, parentId), media);
  }

  /** The first event of an update is the request for the given file. */
  lemma UpdateFirstCall(d: Remote, fileId: string, body: Metadata, media: Option<Media>, parentId: Option<string>)
    ensures var s := Update(d, fileId, body, media, parentId).drive;
      |s.log| > |d.log| && s.log[|d.log|] == Call(UpdateRequest(fileId, body, media))
  {
    var call := ExecuteUpdate(d, fileId, body, media);
    ExtendsByOne(d, Call(UpdateRequest(fileId, body, media)), call.drive);
    UpdateAttemptsExtends(d, fileId, body, media, parentId, 0);
    if call.result.Err? && call.result.error.status == 404 {
      CreateAttemptsExtends(call.drive, CreateBody(body, parentId), media, 0);
    } else if call.result.Err? {
      var handled := HandleErrors(call.drive, call.result.error, "update");
      HandleErrorsExtends(call.drive, call.result.error, "update");
      if handled.result.Ok? {
        UpdateAttemptsExtends(handled.drive, fileId, body, media, parentId, 1);
        ExtendsTrans(call.drive, handled.drive, UpdateAttempts(handled.drive, fileId, body, media, parentId, 1).drive);
      }
    } else {
      ExtendsRefl(call.drive);
    }
    ExtendsKeepsEvent(call.drive, Update(d, fileId, body, media, parentId).drive, |d.log|);
  }

  /** `googledrive_upload` first lists the parent folder for the file name;
      when nothing is listed it creates the file under the parent, and
      otherwise it updates the first file listed, with the same metadata
      and media either way. */
  lemma UploadRequests(d: Remote, writeAsGoogleDoc: bool, filename: string, guessedType: Option<string>,
                       parentId: Option<string>)
    ensures var query := Query([IdText(parentId)], Some(filename), None, Some(false));
      var listed := List(d, query);
      var metadata := UploadMetadata(writeAsGoogleDoc, filename, guessedType);
      var media := UploadMedia(guessedType);
      var s := Upload(d, writeAsGoogleDoc, filename, guessedType, parentId).drive;
      && |s.log| > |d.log| && s.log[|d.log|] == Call(ListRequest(query, None))
      && (listed.result.Ok? ==> |s.log| > |listed.drive.log|)
      && (listed.result == Ok([]) ==>
            s.log[|listed.drive.log|] == Call(CreateRequest(CreateBody(metadata, parentId), Some(media))))
      && (listed.result.Ok? && listed.result.value != [] ==>
            s.log[|listed.drive.log|] == Call(UpdateRequest(listed.result.value[0].id, metadata, Some(media))))
  {
    var query := Query([IdText(parentId)], Some(filename), None, Some(false));
    var listed := List(d, query);
    var metadata := UploadMetadata(writeAsGoogleDoc, filename, guessedType);
    var media := UploadMedia(guessedType);
    var s := Upload(d, writeAsGoogleDoc, filename, guessedType, parentId).drive;
    ListFirstCall(d, query);
    if listed.result.Ok? {
      ListAttemptsExtends(d, query, 0);
      var next: Remote;
      if listed.result.value == [] {
        next := Create(listed.drive, metadata, Some(media), parentId).drive;
        CreateFirstCall(listed.drive, CreateBody(metadata, parentId), Some(media));
        CreateAttemptsExtends(listed.drive, CreateBody(metadata, parentId), Some(media), 0);
      } else {
        next := Update(listed.drive, listed.result.value[0].id, metadata, Some(media), parentId).drive;
        UpdateFirstCall(listed.drive, listed.result.value[0].id, metadata, Some(media), parentId);
        UpdateAttemptsExtends(listed.drive, listed.result.value[0].id, metadata, Some(media), parentId, 0);
      }
      assert s == next;
      ExtendsKeepsEvent(listed.drive, next, |d.log|);
    }
  }
}

/** The scenario trigger that fires when a Google Sheets file was modified
    after the last build of a target dataset. The remote call that reads
    the file's modification time, the timestamp parser and the dataset's
    files info are parameters. */
module LastModifiedTrigger {
  import opened Wrappers
  import opened CivilTime

  const NoFileId: string := "File ID cannot be left empty"
  const NoTargetDataset: string := "Target dataset cannot be left empty"

  /** The "google_sheets_file_id" and "target_dataset" entries; None when
      absent or None. */
  datatype TriggerConfig = TriggerConfig(fileId: Option<string>, targetDataset: Option<string>)

  /** A timestamp parsed with its UTC offset, in seconds. */
  datatype Zoned = Zoned(local: ValidDateTime, offsetSeconds: int)

  /** The "lastModified" entry of a global path: an int, or anything else. */
  datatype LocalValue = IntValue(n: int) | OtherValue

  datatype Decision = Fire | Quiet | Fail(message: string)

  /** Microseconds from the epoch to the instant the zoned timestamp names. */
  function Instant(z: Zoned): int {
    EpochMicros(z.local) - z.offsetSeconds * 1000000
  }

  /** `int(strptime(remote, ...).timestamp()) * 1000`, and 0 when the value
      cannot be parsed (the exception is caught). */
  function RemoteEpoch(remote: Option<string>, parse: string -> Option<Zoned>): (e: int)
    ensures e % 1000 == 0
    ensures remote.None? || parse(remote.value).None? ==> e == 0
  {
    if remote.None? then 0
    else
      var z := parse(remote.value);
      if z.None? then 0 else TruncDiv(Instant(z.value), 1000000) * 1000
  }

  /** The "lastModified" of the first global path, when it is an int. */
  function LocalLastModified(globalPaths: seq<LocalValue>): (r: Option<int>)
    ensures r.Some? <==> globalPaths != [] && globalPaths[0].IntValue?
    ensures r.Some? ==> r.value == globalPaths[0].n
  {
    if globalPaths != [] && globalPaths[0].IntValue? then Some(globalPaths[0].n) else None
  }

  /** The trigger: `fetch` is the remote call for the file id, `filesInfo`
      the "globalPaths" of a dataset. */
  function Decide(config: TriggerConfig, fetch: string -> Option<string>, parse: string -> Option<Zoned>,
                  filesInfo: string -> seq<LocalValue>): Decision
  {
    if config.fileId.None? then Fail(NoFileId)
    else if config.targetDataset.None? then Fail(NoTargetDataset)
    else
      var remote := RemoteEpoch(fetch(config.fileId.value), parse);
      var local := LocalLastModified(filesInfo(config.targetDataset.value));
      if local.Some? && remote > local.value then Fire else Quiet
  }

  /** The config is checked first: a missing file id, then a missing target
      dataset, fail whatever the remote and the dataset hold; empty strings
      pass the checks. */
  lemma ConfigChecks(config: TriggerConfig, fetch: string -> Option<string>, parse: string -> Option<Zoned>,
                     filesInfo: string -> seq<LocalValue>)
    ensures var d := Decide(config, fetch, parse, filesInfo);
      && (config.fileId.None? ==> d == Fail(NoFileId))
      && (config.fileId.Some? && config.targetDataset.None? ==> d == Fail(NoTargetDataset))
      && (d.Fail? <==> config.fileId.None? || config.targetDataset.None?)
      && (config.fileId == Some("") && config.targetDataset == Some("") ==> !d.Fail?)
  {
  }

  /** With an invalid config the remote call and the dataset do not matter:
      nothing is fetched. */
  lemma InvalidConfigFetchesNothing(config: TriggerConfig,
                                    fetch1: string -> Option<string>, fetch2: string -> Option<string>,
                                    parse: string -> Option<Zoned>,
                                    info1: string -> seq<LocalValue>, info2: string -> seq<LocalValue>)
    requires config.fileId.None? || config.targetDataset.None?
    ensures Decide(config, fetch1, parse, info1) == Decide(config, fetch2, parse, info2)
  {
  }

  /** The trigger fires exactly when the first global path holds an int and
      the remote epoch is strictly greater; with no global path, with a
      value that is not an int, or with an equal or older remote epoch it
      stays quiet. */
  lemma FiresWhenNewer(config: TriggerConfig, fetch: string -> Option<string>, parse: string -> Option<Zoned>,
                       filesInfo: string -> seq<LocalValue>)
    requires config.fileId.Some? && config.targetDataset.Some?
    ensures var paths := filesInfo(config.targetDataset.value);
      var remote := RemoteEpoch(fetch(config.fileId.value), parse);
      && (Decide(config, fetch, parse, filesInfo) == Fire <==> paths != [] && paths[0].IntValue? && remote > paths[0].n)
      && (paths == [] ==> Decide(config, fetch, parse, filesInfo) == Quiet)
      && (paths != [] && paths[0].IntValue? && remote <= paths[0].n ==> Decide(config, fetch, parse, filesInfo) == Quiet)
  {
  }

  /** An unreadable remote timestamp counts as the epoch: the trigger fires
      only when the dataset's time is negative. */
  lemma UnparseableRemote(config: TriggerConfig, fetch: string -> Option<string>, parse: string -> Option<Zoned>,
                          filesInfo: string -> seq<LocalValue>)
    requires config.fileId.Some? && config.targetDataset.Some?
    requires fetch(config.fileId.value).None? || parse(fetch(config.fileId.value).value).None?
    ensures var paths := filesInfo(config.targetDataset.value);
      Decide(config, fetch, parse, filesInfo) == Fire <==> paths != [] && paths[0].IntValue? && paths[0].n < 0
  {
  }

  /** A later instant never has a smaller remote epoch. */
  lemma RemoteEpochMonotone(a: Zoned, b: Zoned)
    requires Instant(a) <= Instant(b)
    ensures TruncDiv(Instant(a), 1000000) * 1000 <= TruncDiv(Instant(b), 1000000) * 1000
  {
    TruncDivMonotone(Instant(a), Instant(b));
  }

  /** A timestamp in UTC gives its whole epoch seconds in milliseconds. */
  lemma UtcRemoteEpoch(remote: string, parse: string -> Option<Zoned>, t: ValidDateTime)
    requires parse(remote) == Some(Zoned(t, 0))
    ensures RemoteEpoch(Some(remote), parse) == EpochSeconds(t) * 1000
  {
  }
}

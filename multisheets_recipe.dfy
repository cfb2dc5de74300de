/** The multisheets recipe: it finds the spreadsheet by id or by title
    (creating it when no document has that title), then writes each mapped
    input dataset to its tab with the shared batch loop, pausing before full
    batches when an insertion delay is set. */
module MultisheetsRecipe {
  import opened Wrappers
  import opened Strings
  import opened SheetsCommon
  import opened SheetBatches

  const NoDocumentId: string := "The document id is not provided"
  const NoSheetName: string := "The sheet name is not provided"

  /** A config entry that `config.get(key, default)` reads: absent, or given
      (possibly as None). */
  datatype Entry<T> = Absent | Given(value: T)

  function OrDefault<T>(e: Entry<T>, default: T): (r: T)
    ensures e.Absent? ==> r == default
    ensures e.Given? ==> r == e.value
  {
    if e.Given? then e.value else default
  }

  /** One entry of "tabs_mapping": the input dataset and "output_sheet_name". */
  datatype Mapping = Mapping(input: Input, sheetName: Option<string>)

  datatype MultiConfig = MultiConfig(
    auth: AuthConfig,
    docId: Option<string>,
    documentName: Option<string>,
    insertFormat: Entry<Option<string>>,
    writeMode: Entry<Option<string>>,
    batchSize: Entry<int>,
    insertionDelay: Entry<int>,
    tabsMapping: Entry<seq<Mapping>>)

  /** The loop settings, with the recipe's defaults for a missing entry. */
  function MultiBatch(config: MultiConfig): BatchConfig {
    BatchConfig(OrDefault(config.insertFormat, Some(UserEntered)),
                OrDefault(config.batchSize, 200), OrDefault(config.insertionDelay, 0), false)
  }

  function WriteMode(config: MultiConfig): Option<string> {
    OrDefault(config.writeMode, Some("append"))
  }

  function TooManyDocuments(count: nat, name: string): string {
    "There are " + (NatToString(count) + DocumentsNamed(name))
  }

  function DocumentsNamed(name: string): string {
    " documents named '" + name + "'. Choose a unique name or use document id instead of title."
  }

  /** The document to write to and the events of finding it. `found` holds
      the ids of the documents titled `document_name`, `newId` the id a
      document created now gets. */
  function ResolveDocument(config: MultiConfig, found: seq<string>, newId: string)
    : Result<(string, seq<SheetEvent>), RecipeError>
  {
    if !Truthy(config.docId) && !Truthy(config.documentName) then Err(MissingValue(NoDocumentId))
    else
      var credentials := ExtractCredentials(config.auth, true);
      if credentials.Err? then Err(CredentialFailure(credentials.error))
      else if Truthy(config.docId) then Ok((config.docId.value, []))
      else if |found| > 1 then Err(Failure(TooManyDocuments(|found|, config.documentName.value)))
      else if found == [] then Ok((newId, [CreateDocument(config.documentName.value)]))
      else Ok((found[0], []))
  }

  /** The events of one mapping: open the tab (without creating it), then
      the loop. */
  function MappingBlock(docId: string, m: Mapping, config: MultiConfig): seq<SheetEvent>
    requires m.sheetName.Some?
  {
    [Open(docId, m.sheetName, false)]
      + TabEvents(m.input.rows, HeaderFor(WriteMode(config), m.input.schema), MultiBatch(config))
  }

  /** The mapping loop: it stops at the first mapping without a sheet name. */
  function MappingsRun(docId: string, ms: seq<Mapping>, config: MultiConfig): Run
    decreases |ms|
  {
    if ms == [] then Run([], None)
    else if !Truthy(ms[0].sheetName) then Run([], Some(MissingValue(NoSheetName)))
    else
      var rest := MappingsRun(docId, ms[1..], config);
      Run(MappingBlock(docId, ms[0], config) + rest.events, rest.error)
  }

  function MultiRun(config: MultiConfig, found: seq<string>, newId: string): Run {
    var document := ResolveDocument(config, found, newId);
    if document.Err? then Run([], Some(document.error))
    else
      var r := MappingsRun(document.value.0, OrDefault(config.tabsMapping, []), config);
      Run(document.value.1 + r.events, r.error)
  }

  method RunMultisheets(out: Output, config: MultiConfig, found: seq<string>, newId: string)
    returns (error: Option<RecipeError>)
    modifies out
    ensures out.events == old(out.events) + MultiRun(config, found, newId).events
    ensures error == MultiRun(config, found, newId).error
  {
    if !Truthy(config.docId) && !Truthy(config.documentName) {
      return Some(MissingValue(NoDocumentId));
    }
    var credentials := ExtractCredentials(config.auth, true);
    if credentials.Err? {
      return Some(CredentialFailure(credentials.error));
    }
    var docId: string;
    if Truthy(config.docId) {
      docId := config.docId.value;
    } else if |found| > 1 {
      return Some(Failure(TooManyDocuments(|found|, config.documentName.value)));
    } else if found == [] {
      out.Record(CreateDocument(config.documentName.value));
      docId := newId;
    } else {
      docId := found[0];
    }
    ghost var created := ResolveDocument(config, found, newId).value.1;
    assert out.events == old(out.events) + created;
    var mappings := OrDefault(config.tabsMapping, []);
    var cfg := MultiBatch(config);
    var writeMode := WriteMode(config);
    ghost var start := out.events;
    ghost var whole := MappingsRun(docId, mappings, config);
    for i := 0 to |mappings|
      invariant start + whole.events == out.events + MappingsRun(docId, mappings[i..], config).events
      invariant whole.error == MappingsRun(docId, mappings[i..], config).error
    {
      var m := mappings[i];
      assert mappings[i..][1..] == mappings[i + 1..];
      if !Truthy(m.sheetName) {
        assert out.events == start + whole.events;
        EventsAssoc(old(out.events), created, whole.events);
        return Some(MissingValue(NoSheetName));
      }
      ghost var before := out.events;
      out.Record(Open(docId, m.sheetName, false));
      out.WriteTab(m.input.rows, HeaderFor(writeMode, m.input.schema), cfg);
      EventsAssoc(before, [Open(docId, m.sheetName, false)],
        TabEvents(m.input.rows, HeaderFor(writeMode, m.input.schema), cfg));
      EventsAssoc(before, MappingBlock(docId, m, config), MappingsRun(docId, mappings[i + 1..], config).events);
    }
    assert mappings[|mappings|..] == [];
    EventsAssoc(old(out.events), created, whole.events);
    error := None;
  }

  // ---------------------------------------------------------------------
  // What a run does

  /** Neither an id nor a title fails before anything else; an id wins over
      a title; by title, several matches fail, none creates the document,
      one is used. */
  lemma ResolveCases(config: MultiConfig, found: seq<string>, newId: string)
    ensures var r := ResolveDocument(config, found, newId);
      var credentials := ExtractCredentials(config.auth, true);
      && (!Truthy(config.docId) && !Truthy(config.documentName) ==> r == Err(MissingValue(NoDocumentId)))
      && (Truthy(config.docId) || Truthy(config.documentName) ==>
            (credentials.Err? ==> r == Err(CredentialFailure(credentials.error))))
      && (credentials.Ok? && Truthy(config.docId) ==> r == Ok((config.docId.value, [])))
      && (credentials.Ok? && !Truthy(config.docId) && Truthy(config.documentName) ==>
            && (|found| > 1 ==> r == Err(Failure(TooManyDocuments(|found|, config.documentName.value))))
            && (found == [] ==> r == Ok((newId, [CreateDocument(config.documentName.value)])))
            && (|found| == 1 ==> r == Ok((found[0], []))))
  {
  }

  /** The id given wins: the search result and the new id do not matter. */
  lemma IdWins(config: MultiConfig, found1: seq<string>, newId1: string, found2: seq<string>, newId2: string)
    requires Truthy(config.docId)
    ensures MultiRun(config, found1, newId1) == MultiRun(config, found2, newId2)
  {
  }

  /** The count in the error message is the number of matches, and two
      different counts give two different messages. */
  lemma TooManyDocumentsDistinct(a: nat, b: nat, name: string)
    requires TooManyDocuments(a, name) == TooManyDocuments(b, name)
    ensures a == b
  {
    var intro := "There are ";
    var tail := DocumentsNamed(name);
    assert (intro + (NatToString(a) + tail))[|intro|..] == NatToString(a) + tail;
    assert (intro + (NatToString(b) + tail))[|intro|..] == NatToString(b) + tail;
    SuffixCancel(NatToString(a), NatToString(b), tail);
    NatToStringInjective(a, b);
  }

  lemma SuffixCancel(x: string, y: string, tail: string)
    requires x + tail == y + tail
    ensures x == y
  {
    assert x == (x + tail)[..|x|];
    assert y == (y + tail)[..|y|];
  }

  /** With every entry absent the recipe inserts as "USER_ENTERED", appends,
      uses batches of 200 and no delay, and writes no mapping. */
  lemma Defaults(config: MultiConfig)
    requires config.insertFormat.Absent? && config.writeMode.Absent?
    requires config.batchSize.Absent? && config.insertionDelay.Absent? && config.tabsMapping.Absent?
    ensures MultiBatch(config) == BatchConfig(Some(UserEntered), 200, 0, false)
    ensures WriteMode(config) == Some("append")
    ensures forall schema :: HeaderFor(WriteMode(config), schema).None?
    ensures forall found: seq<string>, newId: string :: ResolveDocument(config, found, newId).Ok? ==>
              MultiRun(config, found, newId) == Run(ResolveDocument(config, found, newId).value.1, None)
  {
  }

  /** The blocks of mappings that all have a sheet name. */
  function Blocks(docId: string, ms: seq<Mapping>, config: MultiConfig): seq<SheetEvent>
    requires forall k :: 0 <= k < |ms| ==> Truthy(ms[k].sheetName)
  {
    if ms == [] then []
    else
      assert Truthy(ms[0].sheetName);
      MappingBlock(docId, ms[0], config) + Blocks(docId, ms[1..], config)
  }

  /** Mappings are written in order; a mapping without a sheet name stops
      the run with an error after all the earlier mappings were written. */
  lemma {:induction false} MappingsStop(docId: string, ms: seq<Mapping>, config: MultiConfig, k: nat)
    requires k < |ms| && !Truthy(ms[k].sheetName)
    requires forall t :: 0 <= t < k ==> Truthy(ms[t].sheetName)
    ensures MappingsRun(docId, ms, config) == Run(Blocks(docId, ms[..k], config), Some(MissingValue(NoSheetName)))
  {
    if k > 0 {
      assert ms[1..][k - 1] == ms[k];
      MappingsStop(docId, ms[1..], config, k - 1);
      assert ms[..k][1..] == ms[1..][..k - 1];
      assert ms[..k][0] == ms[0];
    }
  }

  /** With every sheet name given, every mapping is written, in order. */
  lemma {:induction false} MappingsAll(docId: string, ms: seq<Mapping>, config: MultiConfig)
    requires forall t :: 0 <= t < |ms| ==> Truthy(ms[t].sheetName)
    ensures MappingsRun(docId, ms, config) == Run(Blocks(docId, ms, config), None)
  {
    if ms != [] {
      MappingsAll(docId, ms[1..], config);
    }
  }

  /** One mapping written by the recipe, with a batch size of at least 2:
      batches of exactly `batch_size` rows but the last, which is not empty;
      all batches together are the header (in overwrite mode) and the
      serialized rows; pauses only with a positive delay and only right
      before full batches; nothing echoed. */
  lemma MultiTab(docId: string, m: Mapping, config: MultiConfig)
    requires m.sheetName.Some? && MultiBatch(config).threshold >= 2
    ensures var es := MappingBlock(docId, m, config);
      var cfg := MultiBatch(config);
      var header := HeaderFor(WriteMode(config), m.input.schema);
      && es[0] == Open(docId, m.sheetName, false)
      && WellSized(Flushes(es), cfg.threshold)
      && Concat(Flushes(es)) == (if header.Some? then [header.value] else []) + SerializeRows(cfg.insertFormat, m.input.rows)
      && Paced(es, cfg.threshold, cfg.delay)
      && Echoes(es) == []
  {
    var cfg := MultiBatch(config);
    var header := HeaderFor(WriteMode(config), m.input.schema);
    var tabEs := TabEvents(m.input.rows, header, cfg);
    var es := MappingBlock(docId, m, config);
    FlushesAppend([Open(docId, m.sheetName, false)], tabEs);
    assert Flushes([Open(docId, m.sheetName, false)]) == [] && Echoes([Open(docId, m.sheetName, false)]) == [];
    assert Flushes(es) == Flushes(tabEs) && Echoes(es) == Echoes(tabEs);
    TabFlushSizes(m.input.rows, header, cfg);
    TabFlushesCoverRows(m.input.rows, header, cfg);
    TabEchoes(m.input.rows, header, cfg);
    TabPaced(m.input.rows, header, cfg);
    assert es[1..] == tabEs;
  }

  /** Overwriting with an empty dataset clears the tab and appends the
      column names alone. */
  lemma OverwriteEmpty(docId: string, m: Mapping, config: MultiConfig)
    requires m.sheetName.Some? && m.input.rows == [] && WriteMode(config) == Some("overwrite")
    ensures MappingBlock(docId, m, config)
            == [Open(docId, m.sheetName, false), Clear, AppendRows([HeaderRow(m.input.schema)], MultiBatch(config).insertFormat)]
  {
    EmptyTab(HeaderRow(m.input.schema), MultiBatch(config));
  }
}

/** The row loop both sheet recipes run for one tab: in overwrite mode the
    sheet is cleared and the column names are the first row; the serialized
    rows are gathered in a batch that is appended to the sheet whenever it
    reaches the threshold, and once more at the end if anything is left.
    The append recipe also writes every row to its output dataset; the
    multisheets recipe may pause before each full batch. The effects on the
    sheet, the output dataset and the clock are recorded as events. */
module SheetBatches {
  import opened Wrappers
  import opened CivilTime
  import opened SheetsCommon

  /** A value of a dataset row: a `datetime`, or any other value (which
      the serializers pass through and which is kept as its text). */
  datatype Value = Stamp(t: ValidDateTime) | Plain(text: string)

  type Row = seq<Value>

  const UserEntered: string := "USER_ENTERED"

  /** `serializer_dss` when the insert format is "USER_ENTERED",
      `serializer_iso` otherwise. */
  function Serialize(insertFormat: Option<string>, v: Value): (r: Value)
    ensures v.Plain? ==> r == v
    ensures v.Stamp? && insertFormat == Some(UserEntered) ==> r == Plain(FormatGspread(v.t))
    ensures v.Stamp? && insertFormat != Some(UserEntered) ==> r == Plain(FormatIso(v.t))
  {
    match v
    case Plain(_) => v
    case Stamp(t) => Plain(if insertFormat == Some(UserEntered) then FormatGspread(t) else FormatIso(t))
  }

  function SerializeRow(insertFormat: Option<string>, row: Row): (r: Row)
    ensures |r| == |row| && forall k :: 0 <= k < |row| ==> r[k] == Serialize(insertFormat, row[k])
  {
    if row == [] then [] else [Serialize(insertFormat, row[0])] + SerializeRow(insertFormat, row[1..])
  }

  function SerializeRows(insertFormat: Option<string>, rows: seq<Row>): (r: seq<Row>)
    ensures |r| == |rows| && forall k :: 0 <= k < |rows| ==> r[k] == SerializeRow(insertFormat, rows[k])
  {
    if rows == [] then [] else [SerializeRow(insertFormat, rows[0])] + SerializeRows(insertFormat, rows[1..])
  }

  /** `[column["name"] for column in input_schema]`. */
  function HeaderRow(schema: seq<Column>): (r: Row)
    ensures |r| == |schema| && forall k :: 0 <= k < |schema| ==> r[k] == Plain(schema[k].name)
  {
    if schema == [] then [] else [Plain(schema[0].name)] + HeaderRow(schema[1..])
  }

  datatype SheetEvent =
    | SchemaWritten(columns: seq<Column>)         // output_dataset.write_schema
    | CreateDocument(title: string)               // session.create_new_document
    | Open(docId: string, tab: Option<string>, create: bool)  // session.get_spreadsheet
    | Clear                                       // worksheet.clear()
    | AppendRows(rows: seq<Row>, option: Option<string>)  // worksheet.append_rows
    | Echo(row: Row)                              // writer.write_row_dict
    | Pause(delay: int)                           // sleep(0.01 * insertion_delay)

  /** An input dataset: its name, its schema and its rows. */
  datatype Input = Input(name: string, schema: seq<Column>, rows: seq<Row>)

  /** Why a recipe stops: a credentials error, a `ValueError` with its
      message, an `IndexError`, or a plain `Exception` with its message. */
  datatype RecipeError =
    | CredentialFailure(cause: CredentialError)
    | MissingValue(message: string)
    | IndexError
    | Failure(message: string)

  /** What a recipe run did, and the error it stopped with, if any. */
  datatype Run = Run(events: seq<SheetEvent>, error: Option<RecipeError>)

  /** How a recipe runs the loop: the insert format (also the value input
      option of every append), the batch threshold, the insertion delay and
      whether rows are echoed to the output dataset. */
  datatype BatchConfig = BatchConfig(insertFormat: Option<string>, threshold: int, delay: int, echo: bool)

  /** The batch once a row is added to it. */
  function GatherRow(row: Row, batch: seq<Row>, cfg: BatchConfig): seq<Row> {
    batch + [SerializeRow(cfg.insertFormat, row)]
  }

  /** The pause and the append of a batch that reached the threshold;
      nothing for a smaller batch. */
  function FlushEvents(b: seq<Row>, cfg: BatchConfig): seq<SheetEvent> {
    if |b| < cfg.threshold then []
    else if cfg.delay > 0 then [Pause(cfg.delay), AppendRows(b, cfg.insertFormat)]
    else [AppendRows(b, cfg.insertFormat)]
  }

  function EchoEvents(row: Row, cfg: BatchConfig): seq<SheetEvent> {
    if cfg.echo then [Echo(row)] else []
  }

  /** The batch the next row is added to. */
  function NextBatch(row: Row, batch: seq<Row>, cfg: BatchConfig): seq<Row> {
    if |GatherRow(row, batch, cfg)| >= cfg.threshold then [] else GatherRow(row, batch, cfg)
  }

  /** The append of what is left after the last row. */
  function FinalEvents(batch: seq<Row>, cfg: BatchConfig): seq<SheetEvent> {
    if |batch| > 0 then [AppendRows(batch, cfg.insertFormat)] else []
  }

  /** The events of the loop over `rows` with `batch` gathered so far,
      including the final flush. */
  function RowsEvents(rows: seq<Row>, batch: seq<Row>, cfg: BatchConfig): seq<SheetEvent>
    decreases |rows|
  {
    if rows == [] then FinalEvents(batch, cfg)
    else
      (FlushEvents(GatherRow(rows[0], batch, cfg), cfg) + EchoEvents(rows[0], cfg))
      + RowsEvents(rows[1..], NextBatch(rows[0], batch, cfg), cfg)
  }

  /** The events of one tab; `header` is the column-name row in overwrite mode. */
  function TabEvents(rows: seq<Row>, header: Option<Row>, cfg: BatchConfig): seq<SheetEvent> {
    if header.Some? then [Clear] + RowsEvents(rows, [header.value], cfg) else RowsEvents(rows, [], cfg)
  }

  /** The header a write mode calls for. */
  function HeaderFor(writeMode: Option<string>, schema: seq<Column>): Option<Row> {
    if writeMode == Some("overwrite") then Some(HeaderRow(schema)) else None
  }

  /** The sheet, the output dataset and the clock, as the log of what was
      done to them. */
  class Output {
    var events: seq<SheetEvent>

    constructor()
      ensures events == []
    {
      events := [];
    }

    method Record(e: SheetEvent)
      modifies this
      ensures events == old(events) + [e]
    {
      events := events + [e];
    }

    /** The loop of both recipes for one tab. */
    method WriteTab(rows: seq<Row>, header: Option<Row>, cfg: BatchConfig)
      modifies this
      ensures events == old(events) + TabEvents(rows, header, cfg)
    {
      var batch: seq<Row> := [];
      if header.Some? {
        Record(Clear);
        batch := [header.value];
        EventsAssoc(old(events), [Clear], RowsEvents(rows, batch, cfg));
      } else {
        assert rows[0..] == rows;
      }
      for n := 0 to |rows|
        invariant old(events) + TabEvents(rows, header, cfg) == events + RowsEvents(rows[n..], batch, cfg)
      {
        ghost var before := events;
        ghost var step := FlushEvents(GatherRow(rows[n], batch, cfg), cfg) + EchoEvents(rows[n], cfg);
        RowsUnfold(rows[n..], batch, cfg);
        assert rows[n..][1..] == rows[n + 1..];
        batch := WriteRow(rows[n], batch, cfg);
        EventsAssoc(before, step, RowsEvents(rows[n + 1..], batch, cfg));
      }
      assert rows[|rows|..] == [];
      WriteFinal(batch, cfg);
    }

    /** One pass of the loop body; the batch it leaves. */
    method WriteRow(row: Row, batch: seq<Row>, cfg: BatchConfig) returns (next: seq<Row>)
      modifies this
      ensures next == NextBatch(row, batch, cfg)
      ensures events == old(events) + (FlushEvents(GatherRow(row, batch, cfg), cfg) + EchoEvents(row, cfg))
    {
      next := batch + [SerializeRow(cfg.insertFormat, row)];
      if |next| >= cfg.threshold {
        if cfg.delay > 0 {
          Record(Pause(cfg.delay));
        }
        Record(AppendRows(next, cfg.insertFormat));
        next := [];
      }
      if cfg.echo {
        Record(Echo(row));
      }
    }

    /** The append after the loop. */
    method WriteFinal(batch: seq<Row>, cfg: BatchConfig)
      modifies this
      ensures events == old(events) + FinalEvents(batch, cfg)
    {
      if |batch| > 0 {
        Record(AppendRows(batch, cfg.insertFormat));
      }
    }
  }

  lemma RowsUnfold(rows: seq<Row>, batch: seq<Row>, cfg: BatchConfig)
    requires rows != []
    ensures RowsEvents(rows, batch, cfg)
            == (FlushEvents(GatherRow(rows[0], batch, cfg), cfg) + EchoEvents(rows[0], cfg))
               + RowsEvents(rows[1..], NextBatch(rows[0], batch, cfg), cfg)
  {
  }

  lemma EventsAssoc(a: seq<SheetEvent>, b: seq<SheetEvent>, c: seq<SheetEvent>)
    ensures a + (b + c) == (a + b) + c
  {
  }

  // ---------------------------------------------------------------------
  // What the events say

  /** The batches appended, in order. */
  function Flushes(es: seq<SheetEvent>): seq<seq<Row>> {
    if es == [] then []
    else (if es[0].AppendRows? then [es[0].rows] else []) + Flushes(es[1..])
  }

  /** The rows written to the output dataset, in order. */
  function Echoes(es: seq<SheetEvent>): seq<Row> {
    if es == [] then []
    else (if es[0].Echo? then [es[0].row] else []) + Echoes(es[1..])
  }

  function Concat(batches: seq<seq<Row>>): seq<Row> {
    if batches == [] then [] else batches[0] + Concat(batches[1..])
  }

  lemma {:induction false} FlushesAppend(a: seq<SheetEvent>, b: seq<SheetEvent>)
    ensures Flushes(a + b) == Flushes(a) + Flushes(b)
    ensures Echoes(a + b) == Echoes(a) + Echoes(b)
  {
    if a != [] {
      assert (a + b)[1..] == a[1..] + b;
      FlushesAppend(a[1..], b);
    } else {
      assert a + b == b;
    }
  }

  lemma {:induction false} ConcatAppend(x: seq<seq<Row>>, y: seq<seq<Row>>)
    ensures Concat(x + y) == Concat(x) + Concat(y)
  {
    if x != [] {
      assert (x + y)[1..] == x[1..] + y;
      ConcatAppend(x[1..], y);
    } else {
      assert x + y == y;
    }
  }

  /** What one row's events contribute: the full batch if it reached the
      threshold, and the row echoed if the recipe echoes. */
  lemma StepContents(row: Row, batch: seq<Row>, cfg: BatchConfig)
    ensures var b := GatherRow(row, batch, cfg);
      && Flushes(FlushEvents(b, cfg) + EchoEvents(row, cfg)) == (if |b| >= cfg.threshold then [b] else [])
      && Echoes(FlushEvents(b, cfg) + EchoEvents(row, cfg)) == (if cfg.echo then [row] else [])
  {
    var b := GatherRow(row, batch, cfg);
    FlushesAppend(FlushEvents(b, cfg), EchoEvents(row, cfg));
    if |b| >= cfg.threshold && cfg.delay > 0 {
      assert FlushEvents(b, cfg)[1..] == [AppendRows(b, cfg.insertFormat)];
    }
  }

  /** The contents of the first row's events and of the rest, apart. */
  lemma RowsSplit(rows: seq<Row>, batch: seq<Row>, cfg: BatchConfig)
    requires rows != []
    ensures var b := GatherRow(rows[0], batch, cfg);
      var rest := RowsEvents(rows[1..], NextBatch(rows[0], batch, cfg), cfg);
      && Flushes(RowsEvents(rows, batch, cfg)) == (if |b| >= cfg.threshold then [b] else []) + Flushes(rest)
      && Echoes(RowsEvents(rows, batch, cfg)) == (if cfg.echo then [rows[0]] else []) + Echoes(rest)
  {
    var b := GatherRow(rows[0], batch, cfg);
    var rest := RowsEvents(rows[1..], NextBatch(rows[0], batch, cfg), cfg);
    RowsUnfold(rows, batch, cfg);
    StepContents(rows[0], batch, cfg);
    FlushesAppend(FlushEvents(b, cfg) + EchoEvents(rows[0], cfg), rest);
  }

  /** The batches appended hold, in order, the rows gathered so far
      followed by every serialized row. */
  lemma {:induction false} RowsFlushes(rows: seq<Row>, batch: seq<Row>, cfg: BatchConfig)
    ensures Concat(Flushes(RowsEvents(rows, batch, cfg))) == batch + SerializeRows(cfg.insertFormat, rows)
    decreases |rows|
  {
    if rows == [] {
      assert batch + [] == batch;
      if |batch| > 0 {
        assert Concat([batch]) == batch + Concat([]);
      }
    } else {
      var s := SerializeRow(cfg.insertFormat, rows[0]);
      var b := GatherRow(rows[0], batch, cfg);
      var next := NextBatch(rows[0], batch, cfg);
      var rest := Flushes(RowsEvents(rows[1..], next, cfg));
      var tail := SerializeRows(cfg.insertFormat, rows[1..]);
      RowsSplit(rows, batch, cfg);
      RowsFlushes(rows[1..], next, cfg);
      assert SerializeRows(cfg.insertFormat, rows) == [s] + tail;
      RowsAssoc(batch, [s], tail);
      if |b| >= cfg.threshold {
        ConcatAppend([b], rest);
        assert Concat([b]) == b + Concat([]);
        assert [] + tail == tail;
      } else {
        assert [] + rest == rest;
      }
    }
  }

  lemma RowsAssoc(a: seq<Row>, b: seq<Row>, c: seq<Row>)
    ensures (a + b) + c == a + (b + c)
  {
  }

  /** Every batch appended but the last has exactly `threshold` rows; the last
      is not empty and has at most `threshold`. */
  predicate WellSized(batches: seq<seq<Row>>, threshold: int) {
    forall k :: 0 <= k < |batches| ==> 0 < |batches[k]| <= threshold && (k < |batches| - 1 ==> |batches[k]| == threshold)
  }

  lemma WellSizedCons(b: seq<Row>, rest: seq<seq<Row>>, threshold: int)
    requires |b| == threshold > 0 && WellSized(rest, threshold)
    ensures WellSized([b] + rest, threshold)
  {
    forall k | 0 <= k < |[b] + rest|
      ensures 0 < |([b] + rest)[k]| <= threshold && (k < |rest| ==> |([b] + rest)[k]| == threshold)
    {
      if k > 0 {
        assert ([b] + rest)[k] == rest[k - 1];
      }
    }
  }

  lemma {:induction false} RowsWellSized(rows: seq<Row>, batch: seq<Row>, cfg: BatchConfig)
    requires |batch| < cfg.threshold
    ensures WellSized(Flushes(RowsEvents(rows, batch, cfg)), cfg.threshold)
    decreases |rows|
  {
    if rows != [] {
      var b := GatherRow(rows[0], batch, cfg);
      var next := NextBatch(rows[0], batch, cfg);
      var rest := Flushes(RowsEvents(rows[1..], next, cfg));
      RowsSplit(rows, batch, cfg);
      RowsWellSized(rows[1..], next, cfg);
      if |b| >= cfg.threshold {
        WellSizedCons(b, rest, cfg.threshold);
      } else {
        assert [] + rest == rest;
      }
    }
  }

  /** Every row of the input goes to the output dataset once, in order,
      when the recipe echoes; none does otherwise. */
  lemma {:induction false} RowsEchoes(rows: seq<Row>, batch: seq<Row>, cfg: BatchConfig)
    ensures Echoes(RowsEvents(rows, batch, cfg)) == if cfg.echo then rows else []
    decreases |rows|
  {
    if rows != [] {
      RowsSplit(rows, batch, cfg);
      RowsEchoes(rows[1..], NextBatch(rows[0], batch, cfg), cfg);
      if cfg.echo {
        assert rows == [rows[0]] + rows[1..];
      }
    }
  }

  /** Pauses sit right before full batches: every pause is followed by an
      append of at least `threshold` rows, pauses occur only with a positive
      delay, and with a positive delay every append not preceded by a pause
      is a partial one. */
  predicate Paced(es: seq<SheetEvent>, threshold: int, delay: int)
    decreases |es|
  {
    if es == [] then true
    else if es[0].Pause? then
      && delay > 0 && |es| >= 2 && es[1].AppendRows? && |es[1].rows| >= threshold
      && Paced(es[2..], threshold, delay)
    else
      && (es[0].AppendRows? && delay > 0 ==> |es[0].rows| < threshold)
      && Paced(es[1..], threshold, delay)
  }

  lemma {:induction false} PacedAppend(a: seq<SheetEvent>, b: seq<SheetEvent>, threshold: int, delay: int)
    requires Paced(a, threshold, delay) && Paced(b, threshold, delay)
    ensures Paced(a + b, threshold, delay)
    decreases |a|
  {
    if a == [] {
      assert a + b == b;
    } else if a[0].Pause? {
      assert (a + b)[1] == a[1];
      assert (a + b)[2..] == a[2..] + b;
      PacedAppend(a[2..], b, threshold, delay);
    } else {
      assert (a + b)[1..] == a[1..] + b;
      PacedAppend(a[1..], b, threshold, delay);
    }
  }

  /** One row's events are paced, and the batch left is below the threshold. */
  lemma StepPaced(row: Row, batch: seq<Row>, cfg: BatchConfig)
    ensures Paced(FlushEvents(GatherRow(row, batch, cfg), cfg) + EchoEvents(row, cfg), cfg.threshold, cfg.delay)
    ensures |NextBatch(row, batch, cfg)| < cfg.threshold || cfg.threshold <= 0
  {
    var flush := FlushEvents(GatherRow(row, batch, cfg), cfg);
    var echo := EchoEvents(row, cfg);
    if flush != [] {
      if cfg.delay > 0 {
        assert flush[2..] == [];
      } else {
        assert flush[1..] == [];
      }
    }
    if echo != [] {
      assert echo[1..] == [];
    }
    PacedAppend(flush, echo, cfg.threshold, cfg.delay);
  }

  lemma {:induction false} RowsPaced(rows: seq<Row>, batch: seq<Row>, cfg: BatchConfig)
    requires |batch| < cfg.threshold
    ensures Paced(RowsEvents(rows, batch, cfg), cfg.threshold, cfg.delay)
    decreases |rows|
  {
    if rows == [] {
      if |batch| > 0 {
        assert FinalEvents(batch, cfg)[1..] == [];
      }
    } else {
      var step := FlushEvents(GatherRow(rows[0], batch, cfg), cfg) + EchoEvents(rows[0], cfg);
      var next := NextBatch(rows[0], batch, cfg);
      RowsUnfold(rows, batch, cfg);
      StepPaced(rows[0], batch, cfg);
      RowsPaced(rows[1..], next, cfg);
      PacedAppend(step, RowsEvents(rows[1..], next, cfg), cfg.threshold, cfg.delay);
    }
  }

  /** The loop itself never clears the sheet, and appends only non-empty batches. */
  lemma {:induction false} RowsNeverClear(rows: seq<Row>, batch: seq<Row>, cfg: BatchConfig)
    ensures forall e :: e in RowsEvents(rows, batch, cfg) ==> !e.Clear? && (e.AppendRows? ==> e.rows != [])
    decreases |rows|
  {
    if rows != [] {
      RowsUnfold(rows, batch, cfg);
      RowsNeverClear(rows[1..], NextBatch(rows[0], batch, cfg), cfg);
    }
  }

  /** The first batch appended starts with the first row gathered. */
  lemma FirstFlushStarts(rows: seq<Row>, batch: seq<Row>, cfg: BatchConfig)
    requires batch != []
    ensures var f := Flushes(RowsEvents(rows, batch, cfg)); f != [] && f[0] != [] && f[0][0] == batch[0]
  {
    var es := RowsEvents(rows, batch, cfg);
    var f := Flushes(es);
    var all := batch + SerializeRows(cfg.insertFormat, rows);
    RowsFlushes(rows, batch, cfg);
    RowsNeverClear(rows, batch, cfg);
    FlushesNonEmpty(es);
    assert Concat(f) == all;
    assert all[0] == batch[0];
    assert Concat(f) == f[0] + Concat(f[1..]);
  }

  lemma {:induction false} FlushesNonEmpty(es: seq<SheetEvent>)
    requires forall e :: e in es ==> (e.AppendRows? ==> e.rows != [])
    ensures forall k :: 0 <= k < |Flushes(es)| ==> Flushes(es)[k] != []
  {
    if es != [] {
      assert forall e :: e in es[1..] ==> e in es;
      FlushesNonEmpty(es[1..]);
    }
  }

  // ---------------------------------------------------------------------
  // The properties of one tab

  /** All the batches appended to a tab, put together, are the header if
      any, then every serialized row in input order. */
  lemma TabFlushesCoverRows(rows: seq<Row>, header: Option<Row>, cfg: BatchConfig)
    ensures Concat(Flushes(TabEvents(rows, header, cfg)))
            == (if header.Some? then [header.value] else []) + SerializeRows(cfg.insertFormat, rows)
  {
    if header.Some? {
      var rest := RowsEvents(rows, [header.value], cfg);
      FlushesAppend([Clear], rest);
      RowsFlushes(rows, [header.value], cfg);
      assert Flushes([Clear]) == [];
      assert Flushes([Clear] + rest) == Flushes(rest);
    } else {
      RowsFlushes(rows, [], cfg);
      assert [] + SerializeRows(cfg.insertFormat, rows) == SerializeRows(cfg.insertFormat, rows);
    }
  }

  /** With a threshold of at least 2 (at least 1 without a header), every
      batch but the last has exactly `threshold` rows and the last is not
      empty. */
  lemma TabFlushSizes(rows: seq<Row>, header: Option<Row>, cfg: BatchConfig)
    requires cfg.threshold >= 2 || (cfg.threshold >= 1 && header.None?)
    ensures WellSized(Flushes(TabEvents(rows, header, cfg)), cfg.threshold)
  {
    if header.Some? {
      FlushesAppend([Clear], RowsEvents(rows, [header.value], cfg));
      RowsWellSized(rows, [header.value], cfg);
      assert Flushes([Clear]) == [];
    } else {
      RowsWellSized(rows, [], cfg);
    }
  }

  /** The rows written to the output dataset are the input rows, unserialized
      and in order, when the recipe echoes. */
  lemma TabEchoes(rows: seq<Row>, header: Option<Row>, cfg: BatchConfig)
    ensures Echoes(TabEvents(rows, header, cfg)) == if cfg.echo then rows else []
  {
    if header.Some? {
      FlushesAppend([Clear], RowsEvents(rows, [header.value], cfg));
      RowsEchoes(rows, [header.value], cfg);
      assert Echoes([Clear]) == [];
    } else {
      RowsEchoes(rows, [], cfg);
    }
  }

  /** Pauses come only with a positive delay and only right before full
      batches; the final partial batch is never preceded by one. */
  lemma TabPaced(rows: seq<Row>, header: Option<Row>, cfg: BatchConfig)
    requires cfg.threshold >= 2 || (cfg.threshold >= 1 && header.None?)
    ensures Paced(TabEvents(rows, header, cfg), cfg.threshold, cfg.delay)
  {
    if header.Some? {
      RowsPaced(rows, [header.value], cfg);
      assert ([Clear] + RowsEvents(rows, [header.value], cfg))[1..] == RowsEvents(rows, [header.value], cfg);
    } else {
      RowsPaced(rows, [], cfg);
    }
  }

  /** In overwrite mode the sheet is cleared first and only then, and the
      first batch appended starts with the header row. */
  lemma OverwriteClearsFirst(rows: seq<Row>, header: Row, cfg: BatchConfig)
    ensures var es := TabEvents(rows, Some(header), cfg);
      && es[0] == Clear
      && (forall k :: 1 <= k < |es| ==> !es[k].Clear?)
      && var f := Flushes(es); f != [] && f[0] != [] && f[0][0] == header
  {
    var rest := RowsEvents(rows, [header], cfg);
    var es := [Clear] + rest;
    RowsNeverClear(rows, [header], cfg);
    forall k | 1 <= k < |es| ensures !es[k].Clear? {
      assert es[k] == rest[k - 1];
      assert rest[k - 1] in rest;
    }
    FlushesAppend([Clear], rest);
    assert Flushes([Clear]) == [];
    FirstFlushStarts(rows, [header], cfg);
  }

  /** Appending no rows does nothing; overwriting with no rows clears the
      sheet and appends the header alone. */
  lemma EmptyTab(header: Row, cfg: BatchConfig)
    ensures TabEvents([], None, cfg) == []
    ensures TabEvents([], Some(header), cfg) == [Clear, AppendRows([header], cfg.insertFormat)]
  {
  }
}

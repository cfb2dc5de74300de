/** The append recipe: it merges the schemas of its inputs into the schema
    of its output dataset, checks its configuration, and writes every input
    to one tab of a spreadsheet with the shared batch loop (threshold 50, no
    pause), echoing every row to the output dataset. */
module AppendRecipe {
  import opened Wrappers
  import opened Strings
  import opened SheetsCommon
  import opened SheetBatches

  // ---------------------------------------------------------------------
  // combine_schemas / format_schema

  /** A dict from column name to column type, in insertion order. */
  type Schema = seq<(string, Option<string>)>

  function Keys(m: Schema): (r: seq<string>)
    ensures |r| == |m|
    ensures forall k :: 0 <= k < |m| ==> r[k] == m[k].0
  {
    seq(|m|, k requires 0 <= k < |m| => m[k].0)
  }

  /** The position of a key, if present. */
  function IndexOf(m: Schema, key: string): (r: Option<nat>)
    ensures r.None? <==> key !in Keys(m)
    ensures r.Some? ==> r.value < |m| && m[r.value].0 == key
    ensures r.Some? ==> forall t :: 0 <= t < r.value ==> m[t].0 != key
  {
    if m == [] then None
    else if m[0].0 == key then Some(0)
    else
      var rest := IndexOf(m[1..], key);
      if rest.None? then
        assert forall t :: 0 <= t < |m| ==> m[t].0 != key by {
          forall t | 1 <= t < |m| ensures m[t].0 != key {
            assert m[1..][t - 1] == m[t];
            assert Keys(m[1..])[t - 1] == m[t].0;
          }
        }
        None
      else Some(rest.value + 1)
  }

  /** The first position of a key is the one `IndexOf` finds. */
  lemma FirstIndex(m: Schema, key: string, i: nat)
    requires i < |m| && m[i].0 == key
    requires forall t :: 0 <= t < i ==> m[t].0 != key
    ensures IndexOf(m, key) == Some(i)
  {
    assert Keys(m)[i] == key;
  }

  /** `dict.get(key)` of a present key; None for an absent one. */
  function TypeOf(m: Schema, key: string): Option<Option<string>> {
    var i := IndexOf(m, key);
    if i.None? then None else Some(m[i.value].1)
  }

  /** `m[key] = v`: a present key keeps its place, a new one goes last. */
  function Put(m: Schema, key: string, v: Option<string>): (r: Schema)
    ensures Keys(r) == if key in Keys(m) then Keys(m) else Keys(m) + [key]
  {
    var i := IndexOf(m, key);
    if i.Some? then m[i.value := (key, v)] else m + [(key, v)]
  }

  lemma PutLookup(m: Schema, key: string, v: Option<string>, other: string)
    ensures TypeOf(Put(m, key, v), key) == Some(v)
    ensures other != key ==> TypeOf(Put(m, key, v), other) == TypeOf(m, other)
  {
    var r := Put(m, key, v);
    var i := IndexOf(m, key);
    var j := IndexOf(m, other);
    if i.Some? {
      FirstIndex(r, key, i.value);
    } else {
      FirstIndex(r, key, |m|);
    }
    if other != key && j.Some? {
      FirstIndex(r, other, j.value);
    }
  }

  /** `"{}".format(type)`: None renders as "None". */
  function TypeText(t: Option<string>): string {
    if t.Some? then t.value else "None"
  }

  /** The key `"name(type)"` a conflicting column is added under. */
  function Decorated(c: Column): string {
    c.name + "(" + TypeText(c.colType) + ")"
  }

  /** The inner loop body of `combine_schemas`. */
  function AddColumn(m: Schema, c: Column): Schema {
    if c.name !in Keys(m) then Put(m, c.name, c.colType)
    else if TypeOf(m, c.name) != Some(c.colType) then Put(m, Decorated(c), c.colType)
    else m
  }

  /** All the columns of all the input schemas, in order. */
  function Flatten(schemas: seq<seq<Column>>): seq<Column> {
    if schemas == [] then [] else Flatten(schemas[..|schemas| - 1]) + schemas[|schemas| - 1]
  }

  function AddColumns(m: Schema, cols: seq<Column>): Schema {
    if cols == [] then m else AddColumn(AddColumns(m, cols[..|cols| - 1]), cols[|cols| - 1])
  }

  /** The dict `combine_schemas` fills. */
  function Combined(schemas: seq<seq<Column>>): Schema {
    AddColumns([], Flatten(schemas))
  }

  /** The list of `{name, type}` dicts, one per key in key order. */
  function Columns(m: Schema): seq<Column> {
    seq(|m|, k requires 0 <= k < |m| => Column(m[k].0, m[k].1))
  }

  method CombineSchemas(inputSchemas: seq<seq<Column>>) returns (schema: seq<Column>)
    ensures schema == Columns(Combined(inputSchemas))
  {
    var combined: Schema := [];
    for i := 0 to |inputSchemas|
      invariant combined == AddColumns([], Flatten(inputSchemas[..i]))
    {
      assert inputSchemas[..i + 1][..i] == inputSchemas[..i];
      AddColumnsAppend([], Flatten(inputSchemas[..i]), inputSchemas[i]);
      combined := AddSchema(combined, inputSchemas[i]);
    }
    assert inputSchemas[..|inputSchemas|] == inputSchemas;
    schema := FormatSchema(combined);
  }

  /** The inner loop over the columns of one input schema. */
  method AddSchema(start: Schema, input: seq<Column>) returns (combined: Schema)
    ensures combined == AddColumns(start, input)
  {
    combined := start;
    for j := 0 to |input|
      invariant combined == AddColumns(start, input[..j])
    {
      assert input[..j + 1][..j] == input[..j];
      combined := AddColumn(combined, input[j]);
    }
    assert input[..|input|] == input;
  }

  lemma {:induction false} AddColumnsAppend(m: Schema, a: seq<Column>, b: seq<Column>)
    ensures AddColumns(m, a + b) == AddColumns(AddColumns(m, a), b)
  {
    if b == [] {
      assert a + b == a;
    } else {
      assert (a + b)[..|a + b| - 1] == a + b[..|b| - 1];
      AddColumnsAppend(m, a, b[..|b| - 1]);
    }
  }

  method FormatSchema(m: Schema) returns (formatted: seq<Column>)
    ensures |formatted| == |m|
    ensures forall k :: 0 <= k < |m| ==> formatted[k] == Column(m[k].0, m[k].1)
    ensures formatted == Columns(m)
  {
    formatted := [];
    for n := 0 to |m|
      invariant |formatted| == n
      invariant forall k :: 0 <= k < n ==> formatted[k] == Column(m[k].0, m[k].1)
    {
      formatted := formatted + [Column(m[n].0, m[n].1)];
    }
  }

  // --- what the merged schema is

  lemma PutDistinct(m: Schema, key: string, v: Option<string>)
    requires Distinct(Keys(m))
    ensures Distinct(Keys(Put(m, key, v)))
  {
    var ks := Keys(m);
    if key !in ks {
      var r := ks + [key];
      forall i, j | 0 <= i < j < |r| ensures r[i] != r[j] {
        if j == |ks| {
          assert r[i] == ks[i];
        }
      }
    }
  }

  lemma {:induction false} AddColumnsDistinct(m: Schema, cols: seq<Column>)
    requires Distinct(Keys(m))
    ensures Distinct(Keys(AddColumns(m, cols)))
  {
    if cols != [] {
      var before := AddColumns(m, cols[..|cols| - 1]);
      var c := cols[|cols| - 1];
      AddColumnsDistinct(m, cols[..|cols| - 1]);
      PutDistinct(before, c.name, c.colType);
      PutDistinct(before, Decorated(c), c.colType);
    }
  }

  /** The merged names are distinct. */
  lemma CombinedDistinct(schemas: seq<seq<Column>>)
    ensures Distinct(Keys(Combined(schemas)))
  {
    AddColumnsDistinct([], Flatten(schemas));
  }

  /** Names are never removed or reordered: the keys after any prefix of the
      columns are a prefix of the final keys, so the names come in the order
      they were first inserted. */
  lemma {:induction false} KeysGrow(m: Schema, cols: seq<Column>, j: nat)
    requires j <= |cols|
    ensures Keys(AddColumns(m, cols[..j])) <= Keys(AddColumns(m, cols))
    decreases |cols|
  {
    if j < |cols| {
      var init := cols[..|cols| - 1];
      assert init[..j] == cols[..j];
      KeysGrow(m, init, j);
    } else {
      assert cols[..j] == cols;
    }
  }

  /** Every column name is a merged name. */
  lemma {:induction false} NamesAreKeys(m: Schema, cols: seq<Column>)
    ensures forall c :: c in cols ==> c.name in Keys(AddColumns(m, cols))
  {
    if cols != [] {
      var init := cols[..|cols| - 1];
      NamesAreKeys(m, init);
      KeysGrow(m, cols, |cols| - 1);
      assert cols == init + [cols[|cols| - 1]];
      forall c | c in cols ensures c.name in Keys(AddColumns(m, cols)) {
        if c in init {
          var ks := Keys(AddColumns(m, init));
          var i :| 0 <= i < |ks| && ks[i] == c.name;
          assert Keys(AddColumns(m, cols))[i] == c.name;
        }
      }
    }
  }

  /** The type of the first column of that name. */
  function FirstType(cols: seq<Column>, name: string): Option<string>
    requires exists c :: c in cols && c.name == name
  {
    if cols[0].name == name then cols[0].colType else FirstType(cols[1..], name)
  }

  lemma FirstTypeSnoc(cols: seq<Column>, c: Column, name: string)
    requires exists d :: d in cols && d.name == name
    ensures exists d :: d in cols + [c] && d.name == name
    ensures FirstType(cols + [c], name) == FirstType(cols, name)
  {
    var d :| d in cols && d.name == name;
    assert d in cols + [c];
    if cols[0].name != name {
      assert (cols + [c])[1..] == cols[1..] + [c];
      assert d in cols[1..];
      FirstTypeSnoc(cols[1..], c, name);
    }
  }

  lemma FirstTypeNew(cols: seq<Column>, c: Column)
    requires forall d :: d in cols ==> d.name != c.name
    ensures exists d :: d in cols + [c] && d.name == c.name
    ensures FirstType(cols + [c], c.name) == c.colType
  {
    assert c in cols + [c];
    if cols != [] {
      assert (cols + [c])[1..] == cols[1..] + [c];
      FirstTypeNew(cols[1..], c);
    }
  }

  lemma DecoratedHasParen(c: Column)
    ensures '(' in Decorated(c)
  {
    assert Decorated(c)[|c.name|] == '(';
  }

  /** For a name without a parenthesis, the merged type is the type of the
      first column of that name: later columns of that name with another
      type never change it. */
  lemma {:induction false} FirstTypeKept(m: Schema, cols: seq<Column>, name: string)
    requires '(' !in name
    requires m == []
    requires exists c :: c in cols && c.name == name
    ensures TypeOf(AddColumns(m, cols), name) == Some(FirstType(cols, name))
  {
    var init := cols[..|cols| - 1];
    var c := cols[|cols| - 1];
    assert cols == init + [c];
    AddColumnLookup(AddColumns(m, init), c, name);
    if exists d :: d in init && d.name == name {
      FirstTypeKept(m, init, name);
      FirstTypeSnoc(init, c, name);
    } else {
      assert c.name == name;
      FirstTypeNew(init, c);
      NoKey(m, init, name);
    }
  }

  /** One column changes the type of a name without a parenthesis only when
      it brings that name for the first time. */
  lemma AddColumnLookup(before: Schema, c: Column, name: string)
    requires '(' !in name
    ensures TypeOf(AddColumn(before, c), name)
      == if c.name == name && name !in Keys(before) then Some(c.colType) else TypeOf(before, name)
  {
    DecoratedHasParen(c);
    PutLookup(before, c.name, c.colType, name);
    PutLookup(before, Decorated(c), c.colType, name);
  }

  /** A name no column bears is not a key (of an empty start), unless it is a
      decoration: one without a parenthesis is never a key. */
  lemma {:induction false} NoKey(m: Schema, cols: seq<Column>, name: string)
    requires m == [] && '(' !in name
    requires forall d :: d in cols ==> d.name != name
    ensures name !in Keys(AddColumns(m, cols))
  {
    if cols != [] {
      var init := cols[..|cols| - 1];
      var c := cols[|cols| - 1];
      assert c in cols;
      forall d | d in init ensures d.name != name {
        assert d in cols;
      }
      NoKey(m, init, name);
      DecoratedHasParen(c);
    }
  }

  /** One step of the inner loop on a name already present with another
      type adds the decorated key. */
  lemma ConflictStep(before: Schema, c: Column)
    requires c.name in Keys(before) && TypeOf(before, c.name) != Some(c.colType)
    ensures Decorated(c) in Keys(AddColumn(before, c))
  {
    var after := Put(before, Decorated(c), c.colType);
    assert AddColumn(before, c) == after;
    if Decorated(c) !in Keys(before) {
      assert Keys(after)[|Keys(before)|] == Decorated(c);
    }
  }

  /** A member of a prefix is a member of the whole sequence. */
  lemma InPrefix(a: seq<string>, b: seq<string>, x: string)
    requires a <= b && x in a
    ensures x in b
  {
    var i :| 0 <= i < |a| && a[i] == x;
    assert b[i] == x;
  }

  /** A column whose name has appeared before with a different first type
      adds the key "name(type)". */
  lemma ConflictAddsDecorated(schemas: seq<seq<Column>>, j: nat)
    requires j < |Flatten(schemas)|
    requires var cols := Flatten(schemas); var c := cols[j];
      && '(' !in c.name
      && (exists d :: d in cols[..j] && d.name == c.name)
      && FirstType(cols[..j], c.name) != c.colType
    ensures Decorated(Flatten(schemas)[j]) in Keys(Combined(schemas))
  {
    var cols := Flatten(schemas);
    var c := cols[j];
    var pre := cols[..j];
    var before := AddColumns([], pre);
    FirstTypeKept([], pre, c.name);
    var d :| d in pre && d.name == c.name;
    NamesAreKeys([], pre);
    assert c.name in Keys(before);
    ConflictStep(before, c);
    var upTo := cols[..j + 1];
    assert upTo[..|upTo| - 1] == pre && upTo[|upTo| - 1] == c;
    assert AddColumns([], upTo) == AddColumn(before, c);
    KeysGrow([], cols, j + 1);
    InPrefix(Keys(AddColumns([], upTo)), Keys(AddColumns([], cols)), Decorated(c));
  }

  /** Every merged key is a column name or the decoration of a column. */
  lemma {:induction false} KeysFromColumns(m: Schema, cols: seq<Column>)
    requires m == []
    ensures forall k :: k in Keys(AddColumns(m, cols)) ==> exists c :: c in cols && (k == c.name || k == Decorated(c))
  {
    if cols != [] {
      var init := cols[..|cols| - 1];
      var c := cols[|cols| - 1];
      KeysFromColumns(m, init);
      assert c in cols;
      forall k | k in Keys(AddColumns(m, cols)) ensures exists e :: e in cols && (k == e.name || k == Decorated(e)) {
        if k in Keys(AddColumns(m, init)) {
          var e :| e in init && (k == e.name || k == Decorated(e));
          assert e in cols;
        }
      }
    }
  }

  // ---------------------------------------------------------------------
  // Tab ids

  /** The text up to the first '.', or all of it. */
  function UntilDot(s: string): (r: string)
    ensures '.' !in r && r <= s
    ensures |r| < |s| ==> s[|r|] == '.'
  {
    if s == [] || s[0] == '.' then [] else [s[0]] + UntilDot(s[1..])
  }

  /** `name.split(".")[1]`; None where there is no '.' and the index fails. */
  function SecondField(name: string): (r: Option<string>)
    ensures r.None? <==> '.' !in name
  {
    if '.' in name then Some(UntilDot(name[|UntilDot(name)| + 1..])) else None
  }

  lemma {:induction false} UntilDotOf(a: string, rest: string)
    requires '.' !in a && (rest == [] || rest[0] == '.')
    ensures UntilDot(a + rest) == a
  {
    if a != [] {
      assert (a + rest)[1..] == a[1..] + rest;
      UntilDotOf(a[1..], rest);
    } else {
      assert a + rest == rest;
    }
  }

  /** The part between the first and the second '.' is what is taken. */
  lemma SecondFieldOf(project: string, tab: string, rest: string)
    requires '.' !in project && '.' !in tab && (rest == [] || rest[0] == '.')
    ensures SecondField(project + "." + tab + rest) == Some(tab)
  {
    var s := project + "." + tab + rest;
    UntilDotOf(project, "." + tab + rest);
    assert s == project + ("." + tab + rest);
    assert s[|project|] == '.';
    assert s[|project| + 1..] == tab + rest;
    UntilDotOf(tab, rest);
  }

  /** The second fields of all names, None when one has no '.'. */
  function SecondFields(names: seq<string>): (r: Option<seq<Option<string>>>)
    ensures r.Some? <==> forall k :: 0 <= k < |names| ==> '.' in names[k]
    ensures r.Some? ==> |r.value| == |names| && forall k :: 0 <= k < |names| ==> r.value[k] == SecondField(names[k])
  {
    if names == [] then Some([])
    else
      var rest := SecondFields(names[..|names| - 1]);
      var last := SecondField(names[|names| - 1]);
      if rest.None? || last.None? then None else Some(rest.value + [last])
  }

  /** The loop over the input names that collects the tab ids. */
  method TabsFromNames(names: seq<string>) returns (r: Option<seq<Option<string>>>)
    ensures r == SecondFields(names)
  {
    var tabs: seq<Option<string>> := [];
    for n := 0 to |names|
      invariant SecondFields(names[..n]) == Some(tabs)
    {
      assert names[..n + 1][..n] == names[..n];
      var field := SecondField(names[n]);
      if field.None? {
        assert SecondFields(names[..n + 1]).None?;
        PrefixFails(names, n + 1);
        return None;
      }
      tabs := tabs + [field];
    }
    assert names[..|names|] == names;
    r := Some(tabs);
  }

  lemma PrefixFails(names: seq<string>, n: nat)
    requires n <= |names| && SecondFields(names[..n]).None?
    ensures SecondFields(names).None?
  {
    var k :| 0 <= k < n && '.' !in names[..n][k];
  }

  // ---------------------------------------------------------------------
  // The recipe

  const NoDocumentId: string := "The document id is not provided"
  const NoSheetName: string := "The sheet name is not provided"

  /** The recipe config: the credential entries, "doc_id", "tab_id",
      "tabs_ids", "insert_format" and "write_mode". */
  datatype AppendConfig = AppendConfig(
    auth: AuthConfig,
    docId: Option<string>,
    tabId: Option<string>,
    tabsIds: TabSelector,
    insertFormat: Option<string>,
    writeMode: Option<string>)

  function Names(inputs: seq<Input>): (r: seq<string>)
    ensures |r| == |inputs| && forall k :: 0 <= k < |inputs| ==> r[k] == inputs[k].name
  {
    seq(|inputs|, k requires 0 <= k < |inputs| => inputs[k].name)
  }

  function Schemas(inputs: seq<Input>): (r: seq<seq<Column>>)
    ensures |r| == |inputs| && forall k :: 0 <= k < |inputs| ==> r[k] == inputs[k].schema
  {
    seq(|inputs|, k requires 0 <= k < |inputs| => inputs[k].schema)
  }

  /** The tab ids before the emptiness check: the second fields of the
      input names with several inputs, `get_tab_ids` otherwise (its None
      stands as the empty list, which the check treats alike). */
  function TabIds(config: AppendConfig, names: seq<string>): Result<seq<Option<string>>, RecipeError> {
    if |names| > 1 then
      var fields := SecondFields(names);
      if fields.None? then Err(IndexError) else Ok(fields.value)
    else
      var tabs := GetTabIds(config.tabId, config.tabsIds);
      Ok(if tabs.None? then [] else tabs.value)
  }

  /** The credential and document checks, in order: the document id, then the tab ids. */
  function AppendPlan(config: AppendConfig, names: seq<string>): Result<(string, seq<Option<string>>), RecipeError> {
    var credentials := ExtractCredentials(config.auth, true);
    if credentials.Err? then Err(CredentialFailure(credentials.error))
    else if !Truthy(config.docId) then Err(MissingValue(NoDocumentId))
    else
      var tabs := TabIds(config, names);
      if tabs.Err? then Err(tabs.error)
      else if tabs.value == [] then Err(MissingValue(NoSheetName))
      else Ok((config.docId.value, tabs.value))
  }

  function AppendBatch(insertFormat: Option<string>): BatchConfig {
    BatchConfig(insertFormat, 50, 0, true)
  }

  /** `zip(input_names, tabs_ids)`: as many pairs as the shorter list. */
  function Zip(inputs: seq<Input>, tabs: seq<Option<string>>): (r: seq<(Input, Option<string>)>)
    ensures |r| == if |inputs| <= |tabs| then |inputs| else |tabs|
    ensures forall k :: 0 <= k < |r| ==> r[k] == (inputs[k], tabs[k])
  {
    var n := if |inputs| <= |tabs| then |inputs| else |tabs|;
    seq(n, k requires 0 <= k < n => (inputs[k], tabs[k]))
  }

  /** The events of one input: open (creating) the tab, then the loop. */
  function TabBlock(docId: string, pair: (Input, Option<string>), config: AppendConfig): seq<SheetEvent> {
    [Open(docId, pair.1, true)]
      + TabEvents(pair.0.rows, HeaderFor(config.writeMode, pair.0.schema), AppendBatch(config.insertFormat))
  }

  function Blocks(docId: string, pairs: seq<(Input, Option<string>)>, config: AppendConfig): seq<SheetEvent> {
    if pairs == [] then []
    else Blocks(docId, pairs[..|pairs| - 1], config) + TabBlock(docId, pairs[|pairs| - 1], config)
  }

  /** The whole recipe: the output schema is written first, then the
      checks, then one block per input and tab. */
  function AppendRun(inputs: seq<Input>, config: AppendConfig): Run {
    var schemaEvent := SchemaWritten(Columns(Combined(Schemas(inputs))));
    var plan := AppendPlan(config, Names(inputs));
    if plan.Err? then Run([schemaEvent], Some(plan.error))
    else Run([schemaEvent] + Blocks(plan.value.0, Zip(inputs, plan.value.1), config), None)
  }

  method RunAppend(out: Output, inputs: seq<Input>, config: AppendConfig) returns (error: Option<RecipeError>)
    modifies out
    ensures out.events == old(out.events) + AppendRun(inputs, config).events
    ensures error == AppendRun(inputs, config).error
  {
    var schema := CombineSchemas(Schemas(inputs));
    out.Record(SchemaWritten(schema));
    var credentials := ExtractCredentials(config.auth, true);
    if credentials.Err? {
      return Some(CredentialFailure(credentials.error));
    }
    if !Truthy(config.docId) {
      return Some(MissingValue(NoDocumentId));
    }
    var tabs := PlanTabs(config, Names(inputs));
    if tabs.Err? {
      return Some(tabs.error);
    }
    if tabs.value == [] {
      return Some(MissingValue(NoSheetName));
    }
    var pairs := Zip(inputs, tabs.value);
    WriteBlocks(out, config.docId.value, pairs, config);
    EventsAssoc(old(out.events), [SchemaWritten(schema)], Blocks(config.docId.value, pairs, config));
    error := None;
  }

  /** The tab plan: the tab ids, from the input names or from the config. */
  method PlanTabs(config: AppendConfig, names: seq<string>) returns (tabs: Result<seq<Option<string>>, RecipeError>)
    ensures tabs == TabIds(config, names)
  {
    if |names| > 1 {
      var fields := TabsFromNames(names);
      tabs := if fields.None? then Err(IndexError) else Ok(fields.value);
    } else {
      var selected := GetTabIds(config.tabId, config.tabsIds);
      tabs := Ok(if selected.None? then [] else selected.value);
    }
  }

  /** The loop over the input and tab pairs. */
  method WriteBlocks(out: Output, docId: string, pairs: seq<(Input, Option<string>)>, config: AppendConfig)
    modifies out
    ensures out.events == old(out.events) + Blocks(docId, pairs, config)
  {
    for i := 0 to |pairs|
      invariant out.events == old(out.events) + Blocks(docId, pairs[..i], config)
    {
      assert pairs[..i + 1][..i] == pairs[..i];
      var (input, tab) := pairs[i];
      var header := HeaderFor(config.writeMode, input.schema);
      var cfg := AppendBatch(config.insertFormat);
      ghost var before := out.events;
      out.Record(Open(docId, tab, true));
      out.WriteTab(input.rows, header, cfg);
      EventsAssoc(before, [Open(docId, tab, true)], TabEvents(input.rows, header, cfg));
      EventsAssoc(old(out.events), Blocks(docId, pairs[..i], config), TabBlock(docId, pairs[i], config));
    }
    assert pairs[..|pairs|] == pairs;
  }

  // --- what a run does

  /** The checks fail in order: credentials, then a missing document id,
      then (with several inputs) a name without a '.', then an empty tab
      list; a failing run has written the output schema and nothing else. */
  lemma AppendChecks(inputs: seq<Input>, config: AppendConfig)
    ensures var r := AppendRun(inputs, config);
      var credentials := ExtractCredentials(config.auth, true);
      && (credentials.Err? ==> r.error == Some(CredentialFailure(credentials.error)))
      && (credentials.Ok? && !Truthy(config.docId) ==> r.error == Some(MissingValue(NoDocumentId)))
      && (credentials.Ok? && Truthy(config.docId) && |inputs| > 1 ==>
            (r.error == Some(IndexError) <==> exists k :: 0 <= k < |inputs| && '.' !in inputs[k].name))
      && (credentials.Ok? && Truthy(config.docId) && |inputs| <= 1 ==>
            (r.error == Some(MissingValue(NoSheetName)) <==> GetTabIds(config.tabId, config.tabsIds) in {None, Some([])}))
      && (r.error.Some? ==> r.events == [SchemaWritten(Columns(Combined(Schemas(inputs))))])
  {
  }

  /** With several inputs, the tab of each input is the second '.'-separated
      part of its name, and every input is written. */
  lemma SeveralInputsTabs(inputs: seq<Input>, config: AppendConfig)
    requires |inputs| > 1 && ExtractCredentials(config.auth, true).Ok? && Truthy(config.docId)
    requires forall k :: 0 <= k < |inputs| ==> '.' in inputs[k].name
    ensures var plan := AppendPlan(config, Names(inputs));
      && plan.Ok?
      && |Zip(inputs, plan.value.1)| == |inputs|
      && forall k :: 0 <= k < |inputs| ==> Zip(inputs, plan.value.1)[k].1 == SecondField(inputs[k].name)
  {
    var fields := SecondFields(Names(inputs));
    assert fields.Some?;
    assert |fields.value| == |inputs| > 0;
  }

  /** One tab written by the recipe: batches of exactly 50 rows but the last,
      which is not empty; all batches together are the header (in overwrite
      mode) and the serialized rows; every row is echoed, unserialized, in
      order; the recipe never pauses. */
  lemma AppendTab(docId: string, input: Input, tab: Option<string>, config: AppendConfig)
    ensures var es := TabBlock(docId, (input, tab), config);
      var header := HeaderFor(config.writeMode, input.schema);
      && es[0] == Open(docId, tab, true)
      && WellSized(Flushes(es), 50)
      && Concat(Flushes(es)) == (if header.Some? then [header.value] else []) + SerializeRows(config.insertFormat, input.rows)
      && Echoes(es) == input.rows
      && forall k :: 0 <= k < |es| ==> !es[k].Pause?
  {
    var header := HeaderFor(config.writeMode, input.schema);
    var cfg := AppendBatch(config.insertFormat);
    var tabEs := TabEvents(input.rows, header, cfg);
    var es := TabBlock(docId, (input, tab), config);
    FlushesAppend([Open(docId, tab, true)], tabEs);
    assert Flushes([Open(docId, tab, true)]) == [] && Echoes([Open(docId, tab, true)]) == [];
    assert Flushes(es) == Flushes(tabEs) && Echoes(es) == Echoes(tabEs);
    TabFlushSizes(input.rows, header, cfg);
    TabFlushesCoverRows(input.rows, header, cfg);
    TabEchoes(input.rows, header, cfg);
    TabPaced(input.rows, header, cfg);
    NoPauses(tabEs, cfg.threshold);
    forall k | 0 <= k < |es| ensures !es[k].Pause? {
      if k > 0 {
        assert es[k] == tabEs[k - 1];
      }
    }
  }

  /** Without a delay a paced log has no pause. */
  lemma {:induction false} NoPauses(es: seq<SheetEvent>, threshold: int)
    requires Paced(es, threshold, 0)
    ensures forall k :: 0 <= k < |es| ==> !es[k].Pause?
  {
    if es != [] {
      NoPauses(es[1..], threshold);
      forall k | 1 <= k < |es| ensures !es[k].Pause? {
        assert es[k] == es[1..][k - 1];
      }
    }
  }

  /** The rows of the zipped inputs, in order. */
  function AllRows(pairs: seq<(Input, Option<string>)>): seq<Row> {
    if pairs == [] then [] else AllRows(pairs[..|pairs| - 1]) + pairs[|pairs| - 1].0.rows
  }

  lemma {:induction false} BlocksEchoes(docId: string, pairs: seq<(Input, Option<string>)>, config: AppendConfig)
    ensures Echoes(Blocks(docId, pairs, config)) == AllRows(pairs)
  {
    if pairs != [] {
      var last := pairs[|pairs| - 1];
      BlocksEchoes(docId, pairs[..|pairs| - 1], config);
      FlushesAppend(Blocks(docId, pairs[..|pairs| - 1], config), TabBlock(docId, last, config));
      AppendTab(docId, last.0, last.1, config);
    }
  }

  /** A successful run echoes the rows of every written input exactly once,
      input after input, in order, after writing the schema. */
  lemma AppendEchoesAll(inputs: seq<Input>, config: AppendConfig)
    requires AppendPlan(config, Names(inputs)).Ok?
    ensures var r := AppendRun(inputs, config);
      && r.error.None?
      && r.events[0] == SchemaWritten(Columns(Combined(Schemas(inputs))))
      && Echoes(r.events) == AllRows(Zip(inputs, AppendPlan(config, Names(inputs)).value.1))
  {
    var plan := AppendPlan(config, Names(inputs));
    var schemaEvent := SchemaWritten(Columns(Combined(Schemas(inputs))));
    var blocks := Blocks(plan.value.0, Zip(inputs, plan.value.1), config);
    BlocksEchoes(plan.value.0, Zip(inputs, plan.value.1), config);
    FlushesAppend([schemaEvent], blocks);
    assert Echoes([schemaEvent]) == [];
  }
}

/** The static helpers of `GoogleDriveUtils` other than the path handling:
    the name filter, id de-duplication, the parents query, epoch
    milliseconds, the export mimetype tables, the size reported to the
    file system and the root id. */
module DriveUtils {
  import opened Wrappers
  import opened Strings
  import opened CivilTime

  const Folder: string := "application/vnd.google-apps.folder"
  const Spreadsheet: string := "application/vnd.google-apps.spreadsheet"
  const GoogleDocument: string := "application/vnd.google-apps.document"
  const Drawing: string := "application/vnd.google-apps.drawing"
  const Presentation: string := "application/vnd.google-apps.presentation"
  const Csv: string := "text/csv"
  const PlainText: string := "text/plain"
  const Svg: string := "image/svg+xml"
  const Pptx: string := "application/vnd.openxmlformats-officedocument.presentationml.presentation"
  const Xlsx: string := "application/vnd.openxmlformats-officedocument.spreadsheetml.sheet"
  const GoogleApps: string := "google-apps"
  const RootId: string := "root"
  const DefaultMimeType: string := Csv

  /** A key of a JSON object: absent, present with `null`, or present with
      a value. */
  datatype Field<+T> = Missing | Null | Given(value: T)

  /** A Drive file resource as the API returns it: `size` is absent for
      folders and Google documents, `modifiedTime` holds the already parsed
      timestamp when it has one. */
  datatype DriveItem = DriveItem(
    id: string,
    name: string,
    mimeType: string,
    parents: seq<string>,
    size: Option<nat>,
    modifiedTime: Field<DateTime>)

  predicate IsDirectory(item: DriveItem) {
    item.mimeType == Folder
  }

  /** `is_file_google_doc`: the mimetype mentions "google-apps". */
  predicate IsFileGoogleDoc(item: DriveItem) {
    Contains(item.mimeType, GoogleApps)
  }

  // ---------------------------------------------------------------------
  // keep_files_with

  /** What one item contributes: once for a prefix match, once more for an
      exact match, in that order. */
  function Hits(item: DriveItem, name: Option<string>, nameStartingWith: Option<string>): seq<DriveItem> {
    (if nameStartingWith.Some? && StartsWith(item.name, nameStartingWith.value) then [item] else [])
    + (if name.Some? && item.name == name.value then [item] else [])
  }

  /** The list `keep_files_with` returns, item by item in input order. */
  function Kept(items: seq<DriveItem>, name: Option<string>, nameStartingWith: Option<string>): seq<DriveItem> {
    if items == [] then []
    else Kept(items[..|items| - 1], name, nameStartingWith) + Hits(items[|items| - 1], name, nameStartingWith)
  }

  method KeepFilesWith(items: seq<DriveItem>, name: Option<string>, nameStartingWith: Option<string>)
    returns (ret: seq<DriveItem>)
    ensures ret == Kept(items, name, nameStartingWith)
  {
    ret := [];
    var i := 0;
    while i < |items|
      invariant 0 <= i <= |items|
      invariant ret == Kept(items[..i], name, nameStartingWith)
    {
      var item := items[i];
      assert items[..i + 1][..i] == items[..i];
      if nameStartingWith.Some? {
        if StartsWith(item.name, nameStartingWith.value) {
          ret := ret + [item];
        }
      }
      if name.Some? {
        if item.name == name.value {
          ret := ret + [item];
        }
      }
      i := i + 1;
    }
    assert items[..|items|] == items;
  }

  lemma ItemsAssoc(a: seq<DriveItem>, b: seq<DriveItem>, c: seq<DriveItem>)
    ensures a + (b + c) == (a + b) + c
  {
  }

  /** Order-preserving selection, written from the front. */
  function Select(items: seq<DriveItem>, keep: DriveItem -> bool): seq<DriveItem> {
    if items == [] then []
    else (if keep(items[0]) then [items[0]] else []) + Select(items[1..], keep)
  }

  lemma {:induction false} SelectSnoc(items: seq<DriveItem>, x: DriveItem, keep: DriveItem -> bool)
    ensures Select(items + [x], keep) == Select(items, keep) + (if keep(x) then [x] else [])
  {
    if items == [] {
      assert Select([x], keep) == (if keep(x) then [x] else []) + Select([], keep);
    } else {
      var head: seq<DriveItem> := if keep(items[0]) then [items[0]] else [];
      var tail: seq<DriveItem> := if keep(x) then [x] else [];
      assert (items + [x])[0] == items[0];
      assert (items + [x])[1..] == items[1..] + [x];
      SelectSnoc(items[1..], x, keep);
      assert Select(items + [x], keep) == head + (Select(items[1..], keep) + tail);
      assert Select(items, keep) == head + Select(items[1..], keep);
      ItemsAssoc(head, Select(items[1..], keep), tail);
    }
  }

  /** With only `name` given, the result is the items whose name equals it,
      in input order. */
  lemma {:induction false} KeptByName(items: seq<DriveItem>, n: string)
    ensures Kept(items, Some(n), None) == Select(items, (x: DriveItem) => x.name == n)
  {
    if items != [] {
      var init := items[..|items| - 1];
      KeptByName(init, n);
      SelectSnoc(init, items[|items| - 1], (x: DriveItem) => x.name == n);
      assert init + [items[|items| - 1]] == items;
    }
  }

  lemma {:induction false} SelectKeeps(items: seq<DriveItem>, keep: DriveItem -> bool)
    ensures forall x :: x in Select(items, keep) ==> x in items && keep(x)
  {
    if items != [] {
      SelectKeeps(items[1..], keep);
    }
  }

  /** Every file that both filters keep has exactly the token as its name. */
  lemma MatchedAreNamed(files: seq<DriveItem>, token: string)
    ensures forall x :: x in Kept(Kept(files, None, Some(token)), Some(token), None) ==> x.name == token
  {
    var prefixed := Kept(files, None, Some(token));
    KeptByName(prefixed, token);
    SelectKeeps(prefixed, (x: DriveItem) => x.name == token);
  }

  /** With only `name_starting_with` given, the result is the items whose
      name starts with it, in input order. */
  lemma {:induction false} KeptByPrefix(items: seq<DriveItem>, p: string)
    ensures Kept(items, None, Some(p)) == Select(items, (x: DriveItem) => StartsWith(x.name, p))
  {
    if items != [] {
      var init := items[..|items| - 1];
      KeptByPrefix(init, p);
      SelectSnoc(init, items[|items| - 1], (x: DriveItem) => StartsWith(x.name, p));
      assert init + [items[|items| - 1]] == items;
    }
  }

  function PrefixTest(nameStartingWith: Option<string>): DriveItem -> bool {
    (x: DriveItem) => nameStartingWith.Some? && StartsWith(x.name, nameStartingWith.value)
  }

  function NameTest(name: Option<string>): DriveItem -> bool {
    (x: DriveItem) => name.Some? && x.name == name.value
  }

  /** Up to order, the result is the prefix matches plus the exact matches:
      with both criteria given, an item meeting both is kept twice. */
  lemma {:induction false} KeptAsSelections(items: seq<DriveItem>, name: Option<string>, nameStartingWith: Option<string>)
    ensures multiset(Kept(items, name, nameStartingWith))
            == multiset(Select(items, PrefixTest(nameStartingWith))) + multiset(Select(items, NameTest(name)))
  {
    if items != [] {
      var init, last := items[..|items| - 1], items[|items| - 1];
      var byPrefix, byName := PrefixTest(nameStartingWith), NameTest(name);
      var hitPrefix: seq<DriveItem> := if byPrefix(last) then [last] else [];
      var hitName: seq<DriveItem> := if byName(last) then [last] else [];
      assert items == init + [last];
      KeptAsSelections(init, name, nameStartingWith);
      SelectSnoc(init, last, byPrefix);
      SelectSnoc(init, last, byName);
      assert Hits(last, name, nameStartingWith) == hitPrefix + hitName;
      assert Kept(items, name, nameStartingWith) == Kept(init, name, nameStartingWith) + (hitPrefix + hitName);
      assert Select(items, byPrefix) == Select(init, byPrefix) + hitPrefix;
      assert Select(items, byName) == Select(init, byName) + hitName;
      MultisetsOfSteps(Kept(init, name, nameStartingWith), Select(init, byPrefix), Select(init, byName), hitPrefix, hitName);
    }
  }

  lemma MultisetsOfSteps(kept: seq<DriveItem>, prefixed: seq<DriveItem>, named: seq<DriveItem>,
                         hitPrefix: seq<DriveItem>, hitName: seq<DriveItem>)
    requires multiset(kept) == multiset(prefixed) + multiset(named)
    ensures multiset(kept + (hitPrefix + hitName))
            == multiset(prefixed + hitPrefix) + multiset(named + hitName)
  {
  }

  lemma {:induction false} SelectCount(items: seq<DriveItem>, keep: DriveItem -> bool, x: DriveItem)
    ensures multiset(Select(items, keep))[x] == if keep(x) then multiset(items)[x] else 0
  {
    if items != [] {
      SelectCount(items[1..], keep, x);
      assert items == [items[0]] + items[1..];
    }
  }

  /** An item whose name equals `name` and starts with `name_starting_with`
      appears twice as often in the result as in the input. */
  lemma KeptTwice(items: seq<DriveItem>, n: string, p: string, x: DriveItem)
    requires x.name == n && StartsWith(n, p)
    ensures multiset(Kept(items, Some(n), Some(p)))[x] == 2 * multiset(items)[x]
  {
    KeptAsSelections(items, Some(n), Some(p));
    SelectCount(items, PrefixTest(Some(p)), x);
    SelectCount(items, NameTest(Some(n)), x);
  }

  // ---------------------------------------------------------------------
  // get_files_ids / remove_duplicates

  /** `list(set(to_filter))`: each value once. Python leaves the order
      unspecified; this definition keeps first occurrences, and only the
      properties in the contract are relied upon. */
  function RemoveDuplicates(xs: seq<string>): (r: seq<string>)
    ensures |r| <= |xs|
  {
    if xs == [] then []
    else
      var r := RemoveDuplicates(xs[..|xs| - 1]);
      var last := xs[|xs| - 1];
      if last in r then r else r + [last]
  }

  /** The result holds every value of the input, and each only once. */
  lemma {:induction false} RemoveDuplicatesMeaning(xs: seq<string>)
    ensures Distinct(RemoveDuplicates(xs))
    ensures forall x :: x in RemoveDuplicates(xs) <==> x in xs
  {
    if xs != [] {
      var init := xs[..|xs| - 1];
      RemoveDuplicatesMeaning(init);
      assert xs == init + [xs[|xs| - 1]];
    }
  }

  /** The ids of the items, in order. */
  function Ids(files: seq<DriveItem>): (r: seq<string>)
    ensures |r| == |files|
  {
    if files == [] then [] else Ids(files[..|files| - 1]) + [files[|files| - 1].id]
  }

  lemma {:induction false} IdsAt(files: seq<DriveItem>)
    ensures forall k :: 0 <= k < |files| ==> Ids(files)[k] == files[k].id
  {
    if files != [] {
      IdsAt(files[..|files| - 1]);
    }
  }

  method GetFilesIds(files: seq<DriveItem>) returns (ids: seq<string>)
    ensures ids == RemoveDuplicates(Ids(files))
  {
    var parents: seq<string> := [];
    var i := 0;
    while i < |files|
      invariant 0 <= i <= |files|
      invariant parents == Ids(files[..i])
    {
      assert files[..i + 1][..i] == files[..i];
      parents := parents + [files[i].id];
      i := i + 1;
    }
    assert files[..|files|] == files;
    ids := RemoveDuplicates(parents);
  }

  /** What `get_files_ids` returns holds each id of the files exactly once. */
  lemma GetFilesIdsMeaning(files: seq<DriveItem>)
    ensures Distinct(RemoveDuplicates(Ids(files)))
    ensures forall x :: x in RemoveDuplicates(Ids(files)) <==> exists k :: 0 <= k < |files| && files[k].id == x
  {
    var ids := RemoveDuplicates(Ids(files));
    RemoveDuplicatesMeaning(Ids(files));
    IdsAt(files);
    forall x ensures x in ids <==> exists k :: 0 <= k < |files| && files[k].id == x {
      if x in ids {
        var k :| 0 <= k < |Ids(files)| && Ids(files)[k] == x;
        assert files[k].id == x;
      }
      if exists k :: 0 <= k < |files| && files[k].id == x {
        var k :| 0 <= k < |files| && files[k].id == x;
        assert Ids(files)[k] == x;
      }
    }
  }

  // ---------------------------------------------------------------------
  // query_parents_in

  function ParentTerm(parentId: string): string {
    "'" + parentId + "' in parents"
  }

  function ParentTerms(parentIds: seq<string>): (r: seq<string>)
    ensures |r| == |parentIds|
  {
    if parentIds == [] then []
    else ParentTerms(parentIds[..|parentIds| - 1]) + [ParentTerm(parentIds[|parentIds| - 1])]
  }

  /** The query as the Drive API reads it: the parent terms joined by " or "
      in parentheses, then the trashed, name and name-contains clauses, each
      only when its argument is given. */
  function Query(parentIds: seq<string>, name: Option<string>, nameContains: Option<string>, trashed: Option<bool>): string {
    "(" + Join(ParentTerms(parentIds), " or ") + ")"
    + TrashedClause(trashed) + NameClause(name) + NameContainsClause(nameContains)
  }

  function TrashedClause(trashed: Option<bool>): string {
    if trashed.Some? then " and trashed=" + (if trashed.value then "true" else "false") else ""
  }

  function NameClause(name: Option<string>): string {
    if name.Some? then " and name='" + name.value + "'" else ""
  }

  function NameContainsClause(nameContains: Option<string>): string {
    if nameContains.Some? then " and name contains '" + nameContains.value + "'" else ""
  }

  method QueryParentsIn(parentIds: seq<string>, name: Option<string>, nameContains: Option<string>, trashed: Option<bool>)
    returns (query: string)
    ensures query == Query(parentIds, name, nameContains, trashed)
  {
    query := "(";
    var isFirst := true;
    var i := 0;
    while i < |parentIds|
      invariant 0 <= i <= |parentIds|
      invariant isFirst <==> i == 0
      invariant query == "(" + Join(ParentTerms(parentIds[..i]), " or ")
    {
      var term := ParentTerm(parentIds[i]);
      ParentGroupStep(parentIds, i);
      if isFirst {
        isFirst := false;
      } else {
        query := query + " or ";
      }
      query := query + term;
      i := i + 1;
    }
    assert parentIds[..|parentIds|] == parentIds;
    query := query + ")";
    ghost var group := query;
    if trashed.Some? {
      query := query + " and trashed=" + (if trashed.value then "true" else "false");
      AppendAssoc(group, " and trashed=", if trashed.value then "true" else "false");
    }
    assert query == group + TrashedClause(trashed);
    ghost var filtered := query;
    if name.Some? {
      query := query + " and name='" + name.value + "'";
      AppendAssoc(filtered, " and name='", name.value);
      AppendAssoc(filtered, " and name='" + name.value, "'");
    }
    assert query == group + TrashedClause(trashed) + NameClause(name);
    ghost var named := query;
    if nameContains.Some? {
      query := query + " and name contains '" + nameContains.value + "'";
      AppendAssoc(named, " and name contains '", nameContains.value);
      AppendAssoc(named, " and name contains '" + nameContains.value, "'");
    }
    assert query == group + TrashedClause(trashed) + NameClause(name) + NameContainsClause(nameContains);
    assert group == "(" + Join(ParentTerms(parentIds), " or ") + ")";
  }

  /** The opened group after one more parent term. */
  lemma ParentGroupStep(parentIds: seq<string>, i: nat)
    requires i < |parentIds|
    ensures "(" + Join(ParentTerms(parentIds[..i + 1]), " or ")
            == if i == 0 then "(" + ParentTerm(parentIds[i])
               else "(" + Join(ParentTerms(parentIds[..i]), " or ") + " or " + ParentTerm(parentIds[i])
  {
    var joined := Join(ParentTerms(parentIds[..i]), " or ");
    var term := ParentTerm(parentIds[i]);
    assert parentIds[..i + 1][..i] == parentIds[..i];
    JoinSnoc(ParentTerms(parentIds[..i]), term, " or ");
    if i > 0 {
      AppendAssoc("(", joined, " or ");
      AppendAssoc("(", joined + " or ", term);
    }
  }

  /** An example: no parent ids and no further criteria give the empty
      group "()". */
  lemma QueryEmpty()
    ensures Query([], None, None, None) == "()"
  {
  }

  /** An example: two parents are joined by a single " or ". */
  lemma {:induction false} QueryTwoParents(a: string, b: string)
    ensures Query([a, b], None, None, None) == "('" + a + "' in parents or '" + b + "' in parents)"
  {
    assert ParentTerms([a, b]) == [ParentTerm(a), ParentTerm(b)];
    assert [ParentTerm(a), ParentTerm(b)][1..] == [ParentTerm(b)];
  }

  // ---------------------------------------------------------------------
  // format_date / get_last_modified

  /** `format_date`: epoch milliseconds of a parsed timestamp, in whole
      seconds; `None` stays `None`. */
  function FormatDate(date: Option<DateTime>): (r: Option<int>)
    requires date.Some? ==> Valid(date.value)
    ensures r.Some? <==> date.Some?
    ensures r.Some? ==> r.value % 1000 == 0
  {
    if date.Some? then
      var seconds := EpochSeconds(date.value);
      ThousandsDivisible(seconds);
      Some(seconds * 1000)
    else None
  }

  lemma ThousandsDivisible(n: int)
    ensures (n * 1000) % 1000 == 0
  {
  }

  /** The result is the epoch time in milliseconds with the sub-second part
      dropped: rounded down from 1970 on, toward zero before. */
  lemma {:induction false} FormatDateBounds(t: DateTime)
    requires Valid(t)
    ensures var ms := FormatDate(Some(t)).value;
      var exact := EpochMicros(t);
      && (exact >= 0 ==> ms * 1000 <= exact < ms * 1000 + 1000000)
      && (exact < 0 ==> ms * 1000 - 1000000 < exact <= ms * 1000)
  {
    var exact := EpochMicros(t);
    if exact >= 0 {
      assert exact == (exact / 1000000) * 1000000 + exact % 1000000;
    } else {
      assert -exact == ((-exact) / 1000000) * 1000000 + (-exact) % 1000000;
    }
  }

  /** A later timestamp never gives a smaller value. */
  lemma {:induction false} FormatDateMonotone(a: DateTime, b: DateTime)
    requires Valid(a) && Valid(b) && NotAfter(a, b)
    ensures FormatDate(Some(a)).value <= FormatDate(Some(b)).value
  {
    EpochSecondsMonotone(a, b);
  }

  /** An example: the epoch itself gives 0. */
  lemma FormatDateEpoch()
    ensures FormatDate(Some(DateTime(1970, 1, 1, 0, 0, 0, 0))) == Some(0)
  {
  }

  /** The TypeError that `int(None)` raises when `modifiedTime` is present
      but null: `format_date` passes the None through. The text is only a
      label: its exact wording differs between Python versions. */
  const NullModifiedTime: string := "int() argument must be a string, a bytes-like object or a real number, not 'NoneType'"

  /** `get_last_modified`: the item's modification time in epoch
      milliseconds, `None` when the item has no such key, and a TypeError
      when the key holds null. */
  function GetLastModified(item: DriveItem): (r: Result<Option<int>, string>)
    requires item.modifiedTime.Given? ==> Valid(item.modifiedTime.value)
    ensures r == Ok(None) <==> item.modifiedTime.Missing?
    ensures r == Err(NullModifiedTime) <==> item.modifiedTime.Null?
    ensures item.modifiedTime.Given? ==>
      r.Ok? && r.value.Some? && r.value.value == EpochSeconds(item.modifiedTime.value) * 1000
    ensures r.Ok? && r.value.Some? ==> r.value.value % 1000 == 0
  {
    match item.modifiedTime
    case Missing => Ok(None)
    case Null => Err(NullModifiedTime)
    case Given(t) => Ok(FormatDate(Some(t)))
  }

  // ---------------------------------------------------------------------
  // Export mimetypes

  /** `GOOGLE_DOC_MIME_EQUIVALENCE` and its `_AS_XLSX` variant. */
  function MimeEquivalence(asXlsx: bool): map<string, string> {
    map[Spreadsheet := if asXlsx then Xlsx else Csv,
        GoogleDocument := PlainText,
        Drawing := Svg,
        Presentation := Pptx]
  }

  /** `get_google_doc_mime_equivalence`: the table lookup with CSV as the
      default. */
  function GetGoogleDocMimeEquivalence(gdocType: string, asXlsx: bool): (r: string)
    ensures gdocType !in {Spreadsheet, GoogleDocument, Drawing, Presentation} ==> r == DefaultMimeType
  {
    var table := MimeEquivalence(asXlsx);
    if gdocType in table then table[gdocType] else DefaultMimeType
  }

  /** The xlsx flag changes the spreadsheet entry from CSV to XLSX and
      nothing else. */
  lemma MimeFlagOnlyAffectsSpreadsheets(gdocType: string)
    ensures GetGoogleDocMimeEquivalence(Spreadsheet, false) == Csv
    ensures GetGoogleDocMimeEquivalence(Spreadsheet, true) == Xlsx
    ensures gdocType != Spreadsheet ==>
      GetGoogleDocMimeEquivalence(gdocType, true) == GetGoogleDocMimeEquivalence(gdocType, false)
  {
  }

  // ---------------------------------------------------------------------
  // file_size / get_root_id

  /** `file_size`: 0 for a folder, the reported size for a file, and 1 for
      a file without one (a Google document), so that it reads as
      non-empty. */
  function FileSize(item: DriveItem): (r: nat)
    ensures r == 0 <==> IsDirectory(item) || item.size == Some(0)
    ensures !IsDirectory(item) && item.size.None? ==> r == 1
    ensures !IsDirectory(item) && item.size.Some? ==> r == item.size.value
  {
    if IsDirectory(item) then 0
    else if item.size.Some? then item.size.value
    else 1
  }

  /** `get_root_id`: the configured root id, or "root" when it is missing
      or empty. */
  function GetRootId(configured: Option<string>): (r: string)
    ensures r != ""
    ensures configured.Some? && configured.value != "" ==> r == configured.value
    ensures r == RootId <==> configured.None? || configured.value in {"", RootId}
  {
    if configured.None? || configured.value == "" then RootId else configured.value
  }
}

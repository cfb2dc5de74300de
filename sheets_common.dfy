/** The helpers the sheet recipes share: choosing and checking credentials,
    the tab selection, de-duplicated names, and the detection and
    conversion of date columns. */
module SheetsCommon {
  import opened Wrappers
  import opened Strings
  import opened CivilTime

  // ---------------------------------------------------------------------
  // extract_credentials

  const LegacyServiceAccount: string := "legacy-service-account"
  const PresetServiceAccount: string := "preset-service-account"
  const SingleSignOn: string := "single-sign-on"

  const ServiceAccount: string := "service-account"
  const PersonalAccount: string := "personnal-account"

  const NoServiceAccountPreset: string := "There is no service account preset selected."
  const NoSingleSignOnPreset: string := "There is no Single Sign On preset selected."
  const DefaultEmptyMessage: string := "Please select a type of authentication"

  /** A preset entry of the config: absent (read as `{}`), present but
      None, or a dict. */
  datatype Setting = Missing | Null | Dict(entries: map<string, string>)

  /** The entries of the recipe config that `extract_credentials` reads. */
  datatype AuthConfig = AuthConfig(
    authType: Option<string>,
    credentials: Option<string>,
    presetServiceAccount: Setting,
    oauthCredentials: Setting)

  /** `ValueError(message)`, or the `AttributeError` of calling `.get` on None. */
  datatype CredentialError = ValueError(message: string) | AttributeError

  /** The returned tuple; `errorMessage` is the third element, which only
      the non-raising call returns. */
  datatype Extracted = Extracted(credentials: Option<string>, credentialType: Option<string>,
                                 errorMessage: Option<string>)

  predicate Falsy(s: Setting) {
    s.Missing? || s.Null? || s.entries == map[]
  }

  /** `setting.get(key, None)` once the setting is read with `{}` as default. */
  function SettingGet(s: Setting, key: string): Result<Option<string>, CredentialError> {
    match s
    case Missing => Ok(None)
    case Null => Err(AttributeError)
    case Dict(entries) => Ok(if key in entries then Some(entries[key]) else None)
  }

  function CredentialType(authType: Option<string>): Option<string> {
    if authType.None? || authType == Some(LegacyServiceAccount) || authType == Some(PresetServiceAccount)
    then Some(ServiceAccount)
    else if authType == Some(SingleSignOn) then Some(PersonalAccount)
    else None
  }

  /** `EMPTY_CREDENTIALS_ERROR_MESSAGES.get(auth_type, default)`. */
  function EmptyCredentialsMessage(authType: Option<string>): string {
    if authType == Some(LegacyServiceAccount) then "Your Service Account credentials section is empty"
    else if authType == Some(PresetServiceAccount) then "The selected service account preset is empty"
    else if authType == Some(SingleSignOn) then "There is a problem with the selected Single Sign On preset"
    else DefaultEmptyMessage
  }

  /** The credentials read from a preset, and the "no preset" message when
      the preset is empty and the call may not raise. */
  function FromPreset(preset: Setting, noPreset: string, key: string, canRaise: bool)
    : Result<(Option<string>, Option<string>), CredentialError>
  {
    if Falsy(preset) && canRaise then Err(ValueError(noPreset))
    else
      var got := SettingGet(preset, key);
      if got.Err? then Err(got.error) else Ok((got.value, if Falsy(preset) then Some(noPreset) else None))
  }

  function ExtractCredentials(config: AuthConfig, canRaise: bool): Result<Extracted, CredentialError> {
    var authType := config.authType;
    var sourced :=
      if authType.None? || authType == Some(LegacyServiceAccount) then Ok((config.credentials, None))
      else if authType == Some(PresetServiceAccount) then
        FromPreset(config.presetServiceAccount, NoServiceAccountPreset, "credentials", canRaise)
      else if authType == Some(SingleSignOn) then
        FromPreset(config.oauthCredentials, NoSingleSignOnPreset, "access_token", canRaise)
      else Ok((None, None));
    if sourced.Err? then Err(sourced.error)
    else
      var (credentials, message) := sourced.value;
      if !Truthy(credentials) then
        var empty := EmptyCredentialsMessage(authType);
        if canRaise then Err(ValueError(empty)) else Ok(Extracted(credentials, CredentialType(authType), Some(empty)))
      else Ok(Extracted(credentials, CredentialType(authType), message))
  }

  /** Where the credentials come from: the "credentials" entry for the legacy
      account (or no type), the preset's "credentials", or the Single Sign
      On preset's "access_token"; any other type has none. */
  function CredentialSource(config: AuthConfig): Option<string> {
    var authType := config.authType;
    if authType.None? || authType == Some(LegacyServiceAccount) then config.credentials
    else if authType == Some(PresetServiceAccount) then
      (if config.presetServiceAccount.Dict? && "credentials" in config.presetServiceAccount.entries
       then Some(config.presetServiceAccount.entries["credentials"]) else None)
    else if authType == Some(SingleSignOn) then
      (if config.oauthCredentials.Dict? && "access_token" in config.oauthCredentials.entries
       then Some(config.oauthCredentials.entries["access_token"]) else None)
    else None
  }

  /** The preset the auth type reads, when it reads one. */
  function PresetOf(config: AuthConfig): Option<(Setting, string)> {
    if config.authType == Some(PresetServiceAccount) then Some((config.presetServiceAccount, NoServiceAccountPreset))
    else if config.authType == Some(SingleSignOn) then Some((config.oauthCredentials, NoSingleSignOnPreset))
    else None
  }

  /** The raising call either fails or returns non-empty credentials from
      their source with the type the auth type selects: a service account
      for no type, the legacy and the preset account, a personal account
      for Single Sign On. Its errors, in order: an empty preset, then empty
      credentials. */
  lemma ExtractCredentialsRaising(config: AuthConfig)
    ensures var r := ExtractCredentials(config, true);
      var preset := PresetOf(config);
      && (r.Ok? ==> r.value.credentials == CredentialSource(config) && Truthy(r.value.credentials)
                    && r.value.credentialType == CredentialType(config.authType))
      && (preset.Some? && Falsy(preset.value.0) ==> r == Err(ValueError(preset.value.1)))
      && (!(preset.Some? && Falsy(preset.value.0)) ==>
            (r.Ok? <==> Truthy(CredentialSource(config)))
            && (r.Err? ==> r.error == ValueError(EmptyCredentialsMessage(config.authType))))
  {
  }

  /** The non-raising call returns the same credentials and type. Its
      message is the empty-credentials message whenever the credentials are
      empty, which overrides the "no preset" message; it fails only on a
      preset that is None. */
  lemma ExtractCredentialsQuiet(config: AuthConfig)
    ensures var r := ExtractCredentials(config, false);
      var preset := PresetOf(config);
      && (r.Err? <==> preset.Some? && preset.value.0.Null?)
      && (r.Err? ==> r.error == AttributeError)
      && (r.Ok? ==> && r.value.credentials == CredentialSource(config)
                    && r.value.credentialType == CredentialType(config.authType)
                    && (!Truthy(r.value.credentials) ==> r.value.errorMessage == Some(EmptyCredentialsMessage(config.authType)))
                    && (Truthy(r.value.credentials) ==> r.value.errorMessage.None?))
  {
  }

  /** Credential types by auth type. */
  lemma CredentialTypes(authType: Option<string>)
    ensures CredentialType(authType) == Some(ServiceAccount)
            <==> authType in {None, Some(LegacyServiceAccount), Some(PresetServiceAccount)}
    ensures CredentialType(authType) == Some(PersonalAccount) <==> authType == Some(SingleSignOn)
    ensures CredentialType(authType).None?
            <==> authType !in {None, Some(LegacyServiceAccount), Some(PresetServiceAccount), Some(SingleSignOn)}
  {
  }

  // ---------------------------------------------------------------------
  // get_tab_ids

  const ManualSelect: string := "dku_manual_select"

  /** The `tabs_ids` entry: a string, or anything else (a list, absent). */
  datatype TabSelector = SelectorText(text: string) | SelectorList(tabs: seq<Option<string>>) | SelectorAbsent

  /** `get_tab_ids`: `None` stands for Python's None. */
  function GetTabIds(tabId: Option<string>, selector: TabSelector): (r: Option<seq<Option<string>>>)
    ensures selector == SelectorText(ManualSelect) ==> r == Some([tabId])
    ensures selector.SelectorText? && selector.text != ManualSelect ==> r == Some([Some(selector.text)])
    ensures selector.SelectorList? ==> r == Some(selector.tabs)
    ensures selector.SelectorAbsent? ==> r.None?
  {
    match selector
    case SelectorText(text) => if text == ManualSelect then Some([tabId]) else Some([Some(text)])
    case SelectorList(tabs) => Some(tabs)
    case SelectorAbsent => None
  }

  // ---------------------------------------------------------------------
  // get_unique_names / get_unique_slugs

  /** An empty name stands as "none". */
  function BaseName(name: string): string {
    if name == "" then "none" else name
  }

  /** The `i`-th candidate for a base name: the name itself, then name_1,
      name_2, ... */
  function Candidate(base: string, i: nat): string {
    if i == 0 then base else base + "_" + NatToString(i)
  }

  lemma CandidateInjective(base: string, i: nat, j: nat)
    requires Candidate(base, i) == Candidate(base, j)
    ensures i == j
  {
    assert |Candidate(base, i)| == |Candidate(base, j)|;
    if i != 0 && j != 0 {
      assert NatToString(i) == Candidate(base, i)[|base| + 1..];
      assert NatToString(j) == Candidate(base, j)[|base| + 1..];
      NatToStringInjective(i, j);
    }
  }

  /** The first `n` candidates. */
  ghost function Candidates(base: string, n: nat): set<string> {
    if n == 0 then {} else Candidates(base, n - 1) + {Candidate(base, n - 1)}
  }

  lemma {:induction false} CandidatesSize(base: string, n: nat)
    ensures |Candidates(base, n)| == n
    ensures forall x :: x in Candidates(base, n) ==> exists j :: 0 <= j < n && x == Candidate(base, j)
  {
    if n > 0 {
      CandidatesSize(base, n - 1);
      if Candidate(base, n - 1) in Candidates(base, n - 1) {
        var j :| 0 <= j < n - 1 && Candidate(base, n - 1) == Candidate(base, j);
        CandidateInjective(base, n - 1, j);
      }
    }
  }

  lemma {:induction false} ElementsSize(xs: seq<string>)
    ensures |set x | x in xs| <= |xs|
  {
    if xs != [] {
      var init := xs[..|xs| - 1];
      ElementsSize(init);
      assert (set x | x in xs) == (set x | x in init) + {xs[|xs| - 1]};
    }
  }

  lemma SubsetSize(a: set<string>, b: set<string>)
    requires a <= b
    ensures |a| <= |b|
  {
    assert b == a + (b - a);
  }

  /** If the first `n` candidates are all taken, at least `n` names are. */
  lemma Pigeonhole(emitted: seq<string>, base: string, n: nat)
    requires forall j :: 0 <= j < n ==> Candidate(base, j) in emitted
    ensures n <= |emitted|
  {
    CandidatesSize(base, n);
    var taken := set x | x in emitted;
    assert Candidates(base, n) <= taken;
    SubsetSize(Candidates(base, n), taken);
    ElementsSize(emitted);
  }

  /** The first free candidate from `i` on, all earlier ones being taken. */
  function SmallestFree(emitted: seq<string>, base: string, i: nat): (r: nat)
    requires forall j :: 0 <= j < i ==> Candidate(base, j) in emitted
    ensures i <= r && Candidate(base, r) !in emitted
    ensures forall j :: 0 <= j < r ==> Candidate(base, j) in emitted
    decreases |emitted| - i
  {
    if Candidate(base, i) !in emitted then i
    else
      Pigeonhole(emitted, base, i + 1);
      SmallestFree(emitted, base, i + 1)
  }

  /** The name given to `base` after the names `emitted`. */
  function UniqueName(emitted: seq<string>, base: string): string {
    Candidate(base, SmallestFree(emitted, base, 0))
  }

  /** A free candidate after only taken ones is the one chosen. */
  lemma UniqueNameIs(emitted: seq<string>, base: string, i: nat)
    requires Candidate(base, i) !in emitted
    requires forall j :: 0 <= j < i ==> Candidate(base, j) in emitted
    ensures UniqueName(emitted, base) == Candidate(base, i)
  {

  }

  /** `get_unique_names` as a function of the input names. */
  function UniqueNames(names: seq<string>): (r: seq<string>)
    ensures |r| == |names|
  {
    if names == [] then []
    else
      var init := UniqueNames(names[..|names| - 1]);
      init + [UniqueName(init, BaseName(names[|names| - 1]))]
  }

  /** The output names are pairwise distinct. */
  lemma {:induction false} UniqueNamesDistinct(names: seq<string>)
    ensures Distinct(UniqueNames(names))
  {
    if names != [] {
      var init := UniqueNames(names[..|names| - 1]);
      UniqueNamesDistinct(names[..|names| - 1]);
      var last := UniqueName(init, BaseName(names[|names| - 1]));
      assert last !in init;
      var r := UniqueNames(names);
      forall i, j | 0 <= i < j < |r| ensures r[i] != r[j] {
        if j < |init| {
          assert r[i] == init[i] && r[j] == init[j];
        } else {
          assert r[i] == init[i] && r[j] == last;
        }
      }
    }
  }

  /** The `k`-th output is chosen after the first `k` outputs: the base
      name of the `k`-th input (an empty name reads as "none") if it is not
      among them, else base_i for the smallest `i` >= 1 not among them. */
  lemma {:induction false} UniqueNamesAt(names: seq<string>, k: nat)
    requires k < |names|
    ensures var r := UniqueNames(names);
      var base := BaseName(names[k]);
      exists i: nat :: && r[k] == Candidate(base, i) && r[k] !in r[..k]
                  && forall j :: 0 <= j < i ==> Candidate(base, j) in r[..k]
    decreases |names|
  {
    var r := UniqueNames(names);
    var init := UniqueNames(names[..|names| - 1]);
    assert r[..|names| - 1] == init;
    if k == |names| - 1 {
      var i := SmallestFree(init, BaseName(names[k]), 0);
      assert r[k] == Candidate(BaseName(names[k]), i);
    } else {
      UniqueNamesAt(names[..|names| - 1], k);
      assert r[..k] == init[..k];
      assert r[k] == init[k];
    }
  }

  /** Non-empty, pairwise distinct names come out unchanged. */
  lemma {:induction false} UniqueNamesOfDistinct(names: seq<string>)
    requires Distinct(names) && forall k :: 0 <= k < |names| ==> names[k] != ""
    ensures UniqueNames(names) == names
  {
    if names != [] {
      var init := names[..|names| - 1];
      var last := names[|names| - 1];
      UniqueNamesOfDistinct(init);
      assert last !in init by {
        forall k | 0 <= k < |init| ensures init[k] != last {
          assert init[k] == names[k];
        }
      }
      UniqueNameIs(init, last, 0);
      assert init + [last] == names;
    }
  }

  /** `get_unique_names`. */
  method GetUniqueNames(names: seq<string>) returns (unique: seq<string>)
    ensures unique == UniqueNames(names)
  {
    unique := [];
    for n := 0 to |names|
      invariant unique == UniqueNames(names[..n])
    {
      var name := FreeCandidate(unique, BaseName(names[n]));
      assert names[..n + 1][..n] == names[..n];
      unique := unique + [name];
    }
    assert names[..|names|] == names;
  }

  /** The inner loop: try the base name, then base_1, base_2, ... until one
      is not taken. */
  method FreeCandidate(unique: seq<string>, base: string) returns (candidate: string)
    ensures candidate == UniqueName(unique, base)
  {
    candidate := base;
    var i: nat := 0;
    while candidate in unique
      invariant candidate == Candidate(base, i)
      invariant forall j :: 0 <= j < i ==> Candidate(base, j) in unique
      decreases |unique| - i
    {
      Pigeonhole(unique, base, i + 1);
      i := i + 1;
      candidate := base + "_" + NatToString(i);
    }
    UniqueNameIs(unique, base, i);
  }

  /** The slugs of the names, `slugify` being a parameter. */
  function Slugs(names: seq<string>, slugify: string -> string): (r: seq<string>)
    ensures |r| == |names| && forall k :: 0 <= k < |names| ==> r[k] == slugify(names[k])
  {
    if names == [] then [] else Slugs(names[..|names| - 1], slugify) + [slugify(names[|names| - 1])]
  }

  /** `get_unique_slugs`: the unique names of the slugs. */
  method GetUniqueSlugs(names: seq<string>, slugify: string -> string) returns (unique: seq<string>)
    ensures unique == UniqueNames(Slugs(names, slugify))
  {
    unique := GetUniqueNames(Slugs(names, slugify));
  }

  // ---------------------------------------------------------------------
  // mark_date_columns

  /** A schema column; `colType` is None when the column has no "type". */
  datatype Column = Column(name: string, colType: Option<string>)

  function ColumnType(c: Column): string {
    if c.colType.Some? then c.colType.value else "string"
  }

  /** `mark_date_columns`: `columns` is None when the schema has no
      "columns" entry. */
  method MarkDateColumns(columns: Option<seq<Column>>) returns (dates: seq<nat>)
    ensures forall i, j :: 0 <= i < j < |dates| ==> dates[i] < dates[j]
    ensures forall k: nat :: k in dates <==> columns.Some? && k < |columns.value| && ColumnType(columns.value[k]) == "date"
  {
    var cols := if columns.Some? then columns.value else [];
    dates := [];
    var index: nat := 0;
    for n := 0 to |cols|
      invariant index == n
      invariant forall i, j :: 0 <= i < j < |dates| ==> dates[i] < dates[j]
      invariant forall i :: 0 <= i < |dates| ==> dates[i] < n
      invariant forall k: nat :: k in dates <==> k < n && ColumnType(cols[k]) == "date"
    {
      if ColumnType(cols[n]) == "date" {
        dates := dates + [index];
      }
      index := index + 1;
    }
  }

  // ---------------------------------------------------------------------
  // format_date / convert_dates_in_row

  /** `format_date(date, DSS_DATE_FORMAT, GSPREAD_DATE_FORMAT)`: a falsy
      value is returned as it is; otherwise the text is parsed (the parser
      is a parameter, None when `strptime` raises) and rendered as
      "%Y-%m-%d %H:%M:%S". The error carries the unparsed text. */
  function FormatDate(date: Option<string>, parse: string -> Option<ValidDateTime>): (r: Result<Option<string>, string>)
    ensures !Truthy(date) ==> r == Ok(date)
    ensures Truthy(date) ==> (r.Ok? <==> parse(date.value).Some?)
    ensures Truthy(date) && r.Ok? ==> r.value == Some(FormatGspread(parse(date.value).value))
  {
    if !Truthy(date) then Ok(date)
    else
      var t := parse(date.value);
      if t.None? then Err(date.value) else Ok(Some(FormatGspread(t.value)))
  }

  datatype ConvertError = IndexOutOfRange | Unparseable(text: string)

  /** The row after some conversions, and the error that stopped them. */
  datatype Conversion = Conversion(cells: seq<Option<string>>, error: Option<ConvertError>)

  function ConvertCell(cells: seq<Option<string>>, column: nat, parse: string -> Option<ValidDateTime>): Conversion {
    if column >= |cells| then Conversion(cells, Some(IndexOutOfRange))
    else
      var formatted := FormatDate(cells[column], parse);
      if formatted.Err? then Conversion(cells, Some(Unparseable(formatted.error)))
      else Conversion(cells[column := formatted.value], None)
  }

  /** The loop of `convert_dates_in_row` over the listed columns; the
      first failure stops it with the row as converted so far. */
  function ConvertAll(cells: seq<Option<string>>, columns: seq<nat>, parse: string -> Option<ValidDateTime>): Conversion {
    if columns == [] then Conversion(cells, None)
    else
      var before := ConvertAll(cells, columns[..|columns| - 1], parse);
      if before.error.Some? then before else ConvertCell(before.cells, columns[|columns| - 1], parse)
  }

  /** With distinct columns, the conversion keeps the row's length and every
      unlisted cell; it succeeds exactly when every listed column is in the
      row and its value formats, and each listed cell then holds its
      formatted value (so a falsy value stays as it was). */
  lemma {:induction false} ConvertAllMeaning(cells: seq<Option<string>>, columns: seq<nat>,
                                             parse: string -> Option<ValidDateTime>)
    requires forall i, j :: 0 <= i < j < |columns| ==> columns[i] != columns[j]
    ensures var c := ConvertAll(cells, columns, parse);
      && |c.cells| == |cells|
      && (forall k :: 0 <= k < |cells| && k !in columns ==> c.cells[k] == cells[k])
      && (c.error.None? <==> forall j :: 0 <= j < |columns| ==> columns[j] < |cells| && FormatDate(cells[columns[j]], parse).Ok?)
      && (c.error.None? ==> forall j :: 0 <= j < |columns| ==> c.cells[columns[j]] == FormatDate(cells[columns[j]], parse).value)
  {
    if columns != [] {
      var init := columns[..|columns| - 1];
      var last := columns[|columns| - 1];
      ConvertAllMeaning(cells, init, parse);
      var before := ConvertAll(cells, init, parse);
      assert last !in init by {
        forall j | 0 <= j < |init| ensures init[j] != last {
          assert init[j] == columns[j];
        }
      }
      assert forall j :: 0 <= j < |init| ==> init[j] == columns[j];
      if before.error.None? && last < |cells| {
        assert before.cells[last] == cells[last];
      }
    }
  }

  /** `convert_dates_in_row`: the row is updated in place, one listed
      column after the other; an error leaves the columns before it
      converted. */
  method ConvertDatesInRow(row: array<Option<string>>, columns: seq<nat>, parse: string -> Option<ValidDateTime>)
    returns (error: Option<ConvertError>)
    modifies row
    ensures ConvertAll(old(row[..]), columns, parse) == Conversion(row[..], error)
  {
    error := None;
    var n := 0;
    while n < |columns|
      invariant 0 <= n <= |columns|
      invariant ConvertAll(old(row[..]), columns[..n], parse) == Conversion(row[..], None)
      invariant error.None?
    {
      assert columns[..n + 1][..n] == columns[..n];
      var column := columns[n];
      if column >= row.Length {
        error := Some(IndexOutOfRange);
        assert ConvertAll(old(row[..]), columns[..n + 1], parse) == Conversion(row[..], error);
        ConvertAllStops(old(row[..]), columns, n + 1, parse);
        return;
      }
      var formatted := FormatDate(row[column], parse);
      if formatted.Err? {
        error := Some(Unparseable(formatted.error));
        assert ConvertAll(old(row[..]), columns[..n + 1], parse) == Conversion(row[..], error);
        ConvertAllStops(old(row[..]), columns, n + 1, parse);
        return;
      }
      row[column] := formatted.value;
      n := n + 1;
    }
    assert columns[..|columns|] == columns;
  }

  /** Once a prefix of the columns fails, the whole conversion ends there. */
  lemma {:induction false} ConvertAllStops(cells: seq<Option<string>>, columns: seq<nat>, n: nat,
                                           parse: string -> Option<ValidDateTime>)
    requires n <= |columns| && ConvertAll(cells, columns[..n], parse).error.Some?
    ensures ConvertAll(cells, columns, parse) == ConvertAll(cells, columns[..n], parse)
    decreases |columns| - n
  {
    if n < |columns| {
      assert columns[..n + 1][..n] == columns[..n];
      ConvertAllStops(cells, columns, n + 1, parse);
    } else {
      assert columns[..n] == columns;
    }
  }
}

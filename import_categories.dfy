/**
 * Function-mapping lookup: a tab-separated file maps "dll!function" titles
 * to a description and a category; each title whose DLL (compared without
 * case) and function (compared exactly) appear among the payload's imports
 * yields one function mapping on the task.
 */
module ImportCategories {
  import opened Wrappers
  import opened Collections
  import Text

  /** One row as the CSV reader gives it: (header, value) in column order, None for a missing column. */
  type Row = seq<(string, Option<string>)>

  datatype MappingData = MappingData(description: string, category: string)
  datatype ImportEntry = ImportEntry(libname: string, name: string)
  datatype FunctionMapping = FunctionMapping(dll: string, functionName: string, description: string, category: string)

  /** The task whose `functionMappings` the lookup assigns. */
  class Task {
    var functionMappings: seq<FunctionMapping>

    constructor (functionMappings: seq<FunctionMapping>)
      ensures this.functionMappings == functionMappings
    {
      this.functionMappings := functionMappings;
    }
  }

  const TooManyValues := "too many values to unpack (expected 2)"

  // parse_tsv_to_dict

  /** The row with its header keys stripped; of two keys that strip alike the later column wins. */
  function StripKeys(row: Row): map<string, Option<string>> {
    if row == [] then map[]
    else StripKeys(row[..|row| - 1])[Text.Strip(row[|row| - 1].0) := row[|row| - 1].1]
  }

  /** The header keys of a row, each stripped. */
  function StrippedHeaders(row: Row): (r: seq<string>)
    ensures |r| == |row| && forall i | 0 <= i < |row| :: r[i] == Text.Strip(row[i].0)
  {
    if row == [] then [] else StrippedHeaders(row[..|row| - 1]) + [Text.Strip(row[|row| - 1].0)]
  }

  /** The keys are exactly the stripped header keys. */
  lemma {:induction false} StripKeysDomain(row: Row)
    ensures forall k :: k in StripKeys(row) <==> k in StrippedHeaders(row)
  {
    if row != [] {
      var n := |row| - 1;
      StripKeysDomain(row[..n]);
      assert StripKeys(row) == StripKeys(row[..n])[Text.Strip(row[n].0) := row[n].1];
      assert StrippedHeaders(row) == StrippedHeaders(row[..n]) + [Text.Strip(row[n].0)];
    }
  }

  /** A key's value comes from the last column whose header strips to it. */
  lemma {:induction false} StripKeysLastWins(row: Row, i: int)
    requires 0 <= i < |row|
    requires forall j | i < j < |row| :: Text.Strip(row[j].0) != Text.Strip(row[i].0)
    ensures Text.Strip(row[i].0) in StripKeys(row) && StripKeys(row)[Text.Strip(row[i].0)] == row[i].1
  {
    var n := |row| - 1;
    if i < n {
      StripKeysLastWins(row[..n], i);
    }
  }

  /** `row.get(key)`: None when the key is absent or its column is missing. */
  function Field(r: map<string, Option<string>>, key: string): Option<string> {
    if key in r then r[key] else None
  }

  /** A field that is present and not empty. */
  predicate Given(v: Option<string>) {
    v.Some? && v.value != ""
  }

  /** The (title, data) a row stores, or None when the row is skipped. */
  function RowEntry(row: Row): Option<(string, MappingData)> {
    var r := StripKeys(row);
    var title := Field(r, "title");
    var description := Field(r, "description");
    var category := Field(r, "category");
    if !Given(title) then None
    else if !Given(description) then None
    else if !Given(category) then None
    else Some((Text.Strip(title.value), MappingData(Text.Strip(description.value), Text.Strip(category.value))))
  }

  /**
   * A row is stored exactly when its title, description and category are
   * all present and non-empty, and then under its stripped title with its
   * stripped description and category.
   */
  lemma RowEntrySpec(row: Row)
    ensures var r := StripKeys(row);
            RowEntry(row).Some? <==> Given(Field(r, "title")) && Given(Field(r, "description")) && Given(Field(r, "category"))
    ensures var r := StripKeys(row);
            RowEntry(row).Some? ==> RowEntry(row).value == (Text.Strip(r["title"].value),
                                                             MappingData(Text.Strip(r["description"].value), Text.Strip(r["category"].value)))
  {
  }

  /** The mapping after the rows are read in order. */
  function ParseRows(rows: seq<Row>): OrderedMap<string, MappingData> {
    if rows == [] then EmptyMap()
    else
      var m := ParseRows(rows[..|rows| - 1]);
      match RowEntry(rows[|rows| - 1])
      case None => m
      case Some((title, data)) => m.Put(title, data)
  }

  /** The (title, data) of the stored rows, in file order, repeats included. */
  function Stored(rows: seq<Row>): seq<(string, MappingData)> {
    if rows == [] then []
    else Stored(rows[..|rows| - 1]) + (if RowEntry(rows[|rows| - 1]).Some? then [RowEntry(rows[|rows| - 1]).value] else [])
  }

  /** The stored entries are exactly the entries of the rows that are not skipped. */
  lemma {:induction false} StoredSpec(rows: seq<Row>)
    ensures |Stored(rows)| <= |rows|
    ensures forall e :: e in Stored(rows) <==> exists i | 0 <= i < |rows| :: RowEntry(rows[i]) == Some(e)
  {
    if rows != [] {
      var n := |rows| - 1;
      StoredSpec(rows[..n]);
      assert forall i | 0 <= i < n :: rows[..n][i] == rows[i];
    }
  }

  function TitlesOf(es: seq<(string, MappingData)>): (r: seq<string>)
    ensures |r| == |es| && forall i | 0 <= i < |es| :: r[i] == es[i].0
  {
    if es == [] then [] else TitlesOf(es[..|es| - 1]) + [es[|es| - 1].0]
  }

  /** The map after the entries are written in order. */
  function PutAll(es: seq<(string, MappingData)>): OrderedMap<string, MappingData> {
    if es == [] then EmptyMap() else PutAll(es[..|es| - 1]).Put(es[|es| - 1].0, es[|es| - 1].1)
  }

  lemma {:induction false} ParseRowsStored(rows: seq<Row>)
    ensures ParseRows(rows) == PutAll(Stored(rows))
  {
    if rows != [] {
      var n := |rows| - 1;
      ParseRowsStored(rows[..n]);
      var st := Stored(rows[..n]);
      if RowEntry(rows[n]).Some? {
        assert Stored(rows)[..|Stored(rows)| - 1] == st;
      } else {
        assert Stored(rows) == st;
      }
    }
  }

  lemma {:induction false} PutAllSpec(es: seq<(string, MappingData)>)
    ensures PutAll(es).Valid()
    ensures PutAll(es).keys == Distinct(TitlesOf(es))
  {
    if es != [] {
      var n := |es| - 1;
      PutAllSpec(es[..n]);
      DistinctMembers(TitlesOf(es[..n]));
      assert TitlesOf(es)[..n] == TitlesOf(es[..n]);
    }
  }

  lemma {:induction false} PutAllLastWins(es: seq<(string, MappingData)>, i: int)
    requires 0 <= i < |es|
    requires forall j | i < j < |es| :: es[j].0 != es[i].0
    ensures es[i].0 in PutAll(es).values && PutAll(es).values[es[i].0] == es[i].1
  {
    var n := |es| - 1;
    if i < n {
      assert forall j | i < j < n :: es[..n][j] == es[j];
      PutAllLastWins(es[..n], i);
    }
  }

  /**
   * The parsed mapping is a well-formed ordered map whose titles are the
   * stored rows' titles in order of first appearance.
   */
  lemma ParseRowsSpec(rows: seq<Row>)
    ensures ParseRows(rows).Valid()
    ensures ParseRows(rows).keys == Distinct(TitlesOf(Stored(rows)))
  {
    ParseRowsStored(rows);
    PutAllSpec(Stored(rows));
  }

  /**
   * A title's data comes from the last stored row with that title: a later
   * row overwrites an earlier one (while, by `ParseRowsSpec`, the title
   * keeps the position of its first row).
   */
  lemma ParseRowsLastWins(rows: seq<Row>, i: int)
    requires 0 <= i < |Stored(rows)|
    requires forall j | i < j < |Stored(rows)| :: Stored(rows)[j].0 != Stored(rows)[i].0
    ensures Stored(rows)[i].0 in ParseRows(rows).values
    ensures ParseRows(rows).values[Stored(rows)[i].0] == Stored(rows)[i].1
  {
    ParseRowsStored(rows);
    PutAllLastWins(Stored(rows), i);
  }

  /** `parse_tsv_to_dict` over the rows the file holds. */
  method ParseTsvToDict(rows: seq<Row>) returns (functionMapping: OrderedMap<string, MappingData>)
    ensures functionMapping == ParseRows(rows)
  {
    functionMapping := EmptyMap();
    var i := 0;
    while i < |rows|
      invariant 0 <= i <= |rows|
      invariant functionMapping == ParseRows(rows[..i])
    {
      var row := rows[i];
      assert rows[..i + 1][..i] == rows[..i];
      i := i + 1;
      var entry := RowEntry(row);
      if entry.None? {
        continue;
      }
      var (title, data) := entry.value;
      functionMapping := functionMapping.Put(title, data);
    }
    assert rows[..i] == rows;
  }

  // get_function_mapping

  /** Some import has the DLL, compared without case, and exactly the function. */
  predicate ImportMatches(imports: seq<ImportEntry>, dll: string, functionName: string) {
    exists i | 0 <= i < |imports| :: Text.Lower(dll) == Text.Lower(imports[i].libname) && functionName == imports[i].name
  }

  /** The mapping one title with a single "!" contributes. */
  function MappingOf(title: string, data: MappingData, imports: seq<ImportEntry>): seq<FunctionMapping>
    requires Text.Count(title, '!') == 1
  {
    Text.SplitCharCount(title, '!');
    var parts := Text.Split(title, "!");
    if ImportMatches(imports, parts[0], parts[1]) then [FunctionMapping(parts[0], parts[1], data.description, data.category)]
    else []
  }

  /** The mappings of the titles in order; a title with two or more "!" fails the whole lookup. */
  function MappingsFrom(keys: seq<string>, values: map<string, MappingData>, imports: seq<ImportEntry>): Result<seq<FunctionMapping>>
    requires forall k | k in keys :: k in values
  {
    if keys == [] then Success([])
    else if '!' !in keys[0] then MappingsFrom(keys[1..], values, imports)
    else if Text.Count(keys[0], '!') > 1 then Failure(TooManyValues)
    else
      Text.CountPositive(keys[0], '!');
      var rest := MappingsFrom(keys[1..], values, imports);
      if rest.Failure? then rest
      else Success(MappingOf(keys[0], values[keys[0]], imports) + rest.value)
  }

  /** The title a mapping came from. */
  function TitleOf(m: FunctionMapping): string {
    m.dll + "!" + m.functionName
  }

  /** A title with one "!" whose halves match an import. */
  predicate Yields(title: string, imports: seq<ImportEntry>) {
    Text.Count(title, '!') == 1 && MappingOf(title, MappingData("", ""), imports) != []
  }

  /**
   * What a mapping says about its entry: its title joins its halves, which
   * are free of "!"; some import has its DLL (without case) and exactly
   * its function; it carries its title's description and category.
   */
  predicate Describes(m: FunctionMapping, values: map<string, MappingData>, imports: seq<ImportEntry>) {
    && '!' !in m.dll && '!' !in m.functionName
    && ImportMatches(imports, m.dll, m.functionName)
    && TitleOf(m) in values
    && MappingData(m.description, m.category) == values[TitleOf(m)]
  }

  /** One title yields at most one mapping, and it does exactly when the title is selected. */
  lemma MappingOfSpec(title: string, values: map<string, MappingData>, imports: seq<ImportEntry>)
    requires Text.Count(title, '!') == 1 && title in values
    ensures var ms := MappingOf(title, values[title], imports);
            && |ms| == (if Yields(title, imports) then 1 else 0)
            && forall m | m in ms :: TitleOf(m) == title && Describes(m, values, imports)
  {
    SplitTitle(title);
  }

  /** The titles that yield a mapping: one "!" and an import matching both halves. */
  function Selected(keys: seq<string>, imports: seq<ImportEntry>): seq<string> {
    if keys == [] then []
    else
      (if Yields(keys[0], imports) then [keys[0]] else [])
      + Selected(keys[1..], imports)
  }

  /** A title with exactly one "!" splits into two halves free of "!" that join back to it. */
  lemma SplitTitle(title: string)
    requires Text.Count(title, '!') == 1
    ensures var parts := Text.Split(title, "!");
            |parts| == 2 && parts[0] + "!" + parts[1] == title && '!' !in parts[0] && '!' !in parts[1]
  {
    Text.SplitCharCount(title, '!');
    var parts := Text.Split(title, "!");
    Text.JoinSplit(title, "!");
    assert Text.Join(parts, "!") == parts[0] + "!" + Text.Join(parts[1..], "!");
    assert parts[1..] == [parts[1]];
    Text.CountPositive(parts[0], '!');
    Text.CountPositive(parts[1], '!');
    CountConcat(parts[0], "!" + parts[1]);
    CountConcat("!", parts[1]);
  }

  lemma {:induction false} CountConcat(a: string, b: string)
    ensures Text.Count(a + b, '!') == Text.Count(a, '!') + Text.Count(b, '!')
  {
    if a == [] {
      assert a + b == b;
    } else {
      assert (a + b)[0] == a[0];
      assert (a + b)[1..] == a[1..] + b;
      CountConcat(a[1..], b);
    }
  }

  /** The lookup fails exactly when some title holds more than one "!". */
  lemma {:induction false} MappingsFromFails(keys: seq<string>, values: map<string, MappingData>, imports: seq<ImportEntry>)
    requires forall k | k in keys :: k in values
    ensures MappingsFrom(keys, values, imports).Failure? <==> exists k | k in keys :: Text.Count(k, '!') > 1
  {
    if keys != [] {
      MappingsFromFails(keys[1..], values, imports);
      Text.CountPositive(keys[0], '!');
      assert keys == [keys[0]] + keys[1..];
    }
  }

  /** The mappings line up with the titles, one each, each describing its entry. */
  predicate LinedUp(ms: seq<FunctionMapping>, titles: seq<string>, values: map<string, MappingData>, imports: seq<ImportEntry>) {
    |ms| == |titles| && forall i | 0 <= i < |ms| :: TitleOf(ms[i]) == titles[i] && Describes(ms[i], values, imports)
  }

  lemma LinedUpConcat(ms: seq<FunctionMapping>, titles: seq<string>, ns: seq<FunctionMapping>, more: seq<string>,
                      values: map<string, MappingData>, imports: seq<ImportEntry>)
    requires LinedUp(ms, titles, values, imports) && LinedUp(ns, more, values, imports)
    ensures LinedUp(ms + ns, titles + more, values, imports)
  {
    forall i | |ms| <= i < |ms| + |ns|
      ensures TitleOf((ms + ns)[i]) == (titles + more)[i]
    {
      assert (ms + ns)[i] == ns[i - |ms|];
    }
  }

  lemma MappingsFromStep(keys: seq<string>, values: map<string, MappingData>, imports: seq<ImportEntry>)
    requires forall k | k in keys :: k in values
    requires keys != [] && Text.Count(keys[0], '!') == 1
    requires MappingsFrom(keys, values, imports).Success?
    ensures MappingsFrom(keys[1..], values, imports).Success?
    ensures MappingsFrom(keys, values, imports).value == MappingOf(keys[0], values[keys[0]], imports) + MappingsFrom(keys[1..], values, imports).value
  {
    Text.CountPositive(keys[0], '!');
  }

  lemma MappingsFromSkip(keys: seq<string>, values: map<string, MappingData>, imports: seq<ImportEntry>)
    requires forall k | k in keys :: k in values
    requires keys != [] && '!' !in keys[0]
    ensures MappingsFrom(keys, values, imports) == MappingsFrom(keys[1..], values, imports)
    ensures Selected(keys, imports) == Selected(keys[1..], imports)
  {
    Text.CountPositive(keys[0], '!');
  }

  /**
   * On success, the mappings come from the selected titles, one each and in
   * title order; each carries its title's halves, whose DLL matches an
   * import's library without case and whose function matches that
   * import's name exactly, and its title's description and category.
   */
  lemma {:induction false} MappingsFromSpec(keys: seq<string>, values: map<string, MappingData>, imports: seq<ImportEntry>)
    requires forall k | k in keys :: k in values
    requires MappingsFrom(keys, values, imports).Success?
    ensures LinedUp(MappingsFrom(keys, values, imports).value, Selected(keys, imports), values, imports)
  {
    if keys != [] {
      var title := keys[0];
      if '!' !in title {
        MappingsFromSkip(keys, values, imports);
        MappingsFromSpec(keys[1..], values, imports);
      } else {
        Text.CountPositive(title, '!');
        MappingsFromStep(keys, values, imports);
        MappingsFromSpec(keys[1..], values, imports);
        MappingOfSpec(title, values, imports);
        var head := MappingOf(title, values[title], imports);
        var sel := if Yields(title, imports) then [title] else [];
        assert LinedUp(head, sel, values, imports);
        LinedUpConcat(head, sel, MappingsFrom(keys[1..], values, imports).value, Selected(keys[1..], imports), values, imports);
      }
    }
  }

  /** Selecting from distinct titles gives distinct titles, so no title yields two mappings. */
  lemma {:induction false} SelectedDistinct(keys: seq<string>, imports: seq<ImportEntry>)
    requires NoDuplicates(keys)
    ensures NoDuplicates(Selected(keys, imports))
    ensures forall k | k in Selected(keys, imports) :: k in keys
  {
    if keys != [] {
      assert NoDuplicates(keys[1..]) by {
        forall i, j | 0 <= i < j < |keys[1..]|
          ensures keys[1..][i] != keys[1..][j]
        {
          assert keys[1..][i] == keys[i + 1] && keys[1..][j] == keys[j + 1];
        }
      }
      SelectedDistinct(keys[1..], imports);
      assert keys[0] !in keys[1..] by {
        forall j | 0 <= j < |keys[1..]|
          ensures keys[1..][j] != keys[0]
        {
          assert keys[1..][j] == keys[j + 1];
        }
      }
    }
  }

  /** The inner loop: whether some import matches, stopping at the first that does. */
  method FindImport(imports: seq<ImportEntry>, dll: string, functionName: string) returns (found: bool)
    ensures found <==> ImportMatches(imports, dll, functionName)
  {
    var dllLower := Text.Lower(dll);
    found := false;
    var i := 0;
    while i < |imports|
      invariant 0 <= i <= |imports|
      invariant forall j | 0 <= j < i :: !(Text.Lower(dll) == Text.Lower(imports[j].libname) && functionName == imports[j].name)
    {
      var importEntry := imports[i];
      if dllLower == Text.Lower(importEntry.libname) {
        if functionName == importEntry.name {
          found := true;
          break;
        }
      }
      i := i + 1;
    }
  }

  lemma MappingsFromUnfold(keys: seq<string>, values: map<string, MappingData>, imports: seq<ImportEntry>)
    requires forall k | k in keys :: k in values
    requires keys != [] && Text.Count(keys[0], '!') == 1
    ensures MappingsFrom(keys, values, imports) == Prepend(MappingOf(keys[0], values[keys[0]], imports), MappingsFrom(keys[1..], values, imports))
  {
    Text.CountPositive(keys[0], '!');
  }

  /** The body of the outer loop for a title with one "!", split into its halves. */
  method MapTitle(title: string, parts: seq<string>, data: MappingData, imports: seq<ImportEntry>) returns (here: seq<FunctionMapping>)
    requires Text.Count(title, '!') == 1 && parts == Text.Split(title, "!")
    ensures here == MappingOf(title, data, imports)
  {
    Text.SplitCharCount(title, '!');
    var found := FindImport(imports, parts[0], parts[1]);
    if found {
      here := [FunctionMapping(parts[0], parts[1], data.description, data.category)];
    } else {
      here := [];
    }
  }

  /** The outer loop over the titles, in mapping order. */
  method CollectMappings(functionMapping: OrderedMap<string, MappingData>, imports: seq<ImportEntry>) returns (r: Result<seq<FunctionMapping>>)
    requires forall k | k in functionMapping.keys :: k in functionMapping.values
    ensures r == MappingsFrom(functionMapping.keys, functionMapping.values, imports)
  {
    var keys := functionMapping.keys;
    ghost var values := functionMapping.values;
    var models: seq<FunctionMapping> := [];
    var i := 0;
    assert keys[0..] == keys;
    PrependTwice([], [], MappingsFrom(keys, values, imports));
    assert Prepend([], MappingsFrom(keys, values, imports)) == MappingsFrom(keys, values, imports) by {
      if MappingsFrom(keys, values, imports).Success? {
        assert [] + MappingsFrom(keys, values, imports).value == MappingsFrom(keys, values, imports).value;
      }
    }
    while i < |keys|
      invariant 0 <= i <= |keys|
      invariant MappingsFrom(keys, values, imports) == Prepend(models, MappingsFrom(keys[i..], values, imports))
    {
      var title := keys[i];
      assert keys[i..][1..] == keys[i + 1..];
      assert keys[i..][0] == title;
      if '!' !in title {
        MappingsFromSkip(keys[i..], values, imports);
        i := i + 1;
        continue;
      }
      Text.SplitCharCount(title, '!');
      Text.CountPositive(title, '!');
      var parts := Text.Split(title, "!");
      if |parts| != 2 {
        assert MappingsFrom(keys[i..], values, imports) == Failure(TooManyValues);
        return Failure(TooManyValues);
      }
      var data := functionMapping.values[title];
      var here := MapTitle(title, parts, data, imports);
      MappingsFromUnfold(keys[i..], values, imports);
      PrependTwice(models, here, MappingsFrom(keys[i + 1..], values, imports));
      models := models + here;
      i := i + 1;
    }
    assert MappingsFrom(keys[i..], values, imports) == Success([]);
    assert models + [] == models;
    return Success(models);
  }

  /** The mappings a lookup assigns: the rows parsed, then matched against the imports. */
  function LookupOf(rows: seq<Row>, imports: seq<ImportEntry>): Result<seq<FunctionMapping>> {
    var m := ParseRows(rows);
    ParseRowsSpec(rows);
    MappingsFrom(m.keys, m.values, imports)
  }

  /**
   * The lookup, stated without the loops: it fails exactly when a stored
   * title holds two or more "!"; otherwise it yields one mapping for each
   * selected title, in order of the titles' first rows, no title twice,
   * each describing its title's entry in the parsed mapping.
   */
  lemma LookupSpec(rows: seq<Row>, imports: seq<ImportEntry>)
    ensures LookupOf(rows, imports).Failure? <==> exists k | k in TitlesOf(Stored(rows)) :: Text.Count(k, '!') > 1
    ensures LookupOf(rows, imports).Success? ==>
              var titles := Selected(Distinct(TitlesOf(Stored(rows))), imports);
              && LinedUp(LookupOf(rows, imports).value, titles, ParseRows(rows).values, imports)
              && NoDuplicates(titles)
  {
    var m := ParseRows(rows);
    ParseRowsSpec(rows);
    DistinctMembers(TitlesOf(Stored(rows)));
    MappingsFromFails(m.keys, m.values, imports);
    if LookupOf(rows, imports).Success? {
      MappingsFromSpec(m.keys, m.values, imports);
      SelectedDistinct(m.keys, imports);
    }
  }

  /**
   * `get_function_mapping` with the mapping file's availability and rows
   * given: when the file is unavailable, the lookup fails, or nothing
   * matches, the task keeps its mappings; otherwise they are replaced by
   * the matches.
   */
  method GetFunctionMapping(task: Task, mappingAvailable: bool, rows: seq<Row>, imports: seq<ImportEntry>) returns (r: Result<()>)
    modifies task
    ensures !mappingAvailable ==> r == Success(()) && task.functionMappings == old(task.functionMappings)
    ensures mappingAvailable && LookupOf(rows, imports).Failure? ==>
              r.Failure? && task.functionMappings == old(task.functionMappings)
    ensures mappingAvailable && LookupOf(rows, imports).Success? ==> r == Success(())
    ensures mappingAvailable && LookupOf(rows, imports) == Success([]) ==> task.functionMappings == old(task.functionMappings)
    ensures mappingAvailable && LookupOf(rows, imports).Success? && LookupOf(rows, imports).value != [] ==>
              task.functionMappings == LookupOf(rows, imports).value
  {
    if !mappingAvailable {
      return Success(());
    }
    var functionMapping := ParseTsvToDict(rows);
    ParseRowsSpec(rows);
    var models := CollectMappings(functionMapping, imports);
    if models.Failure? {
      return Failure(models.error);
    }
    if models.value != [] {
      task.functionMappings := models.value;
    }
    return Success(());
  }
}

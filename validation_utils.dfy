/**
 * The helpers that run a schema and turn its issues into messages. A schema
 * is any function from the input to either the parsed value or a list of
 * issues (zod's `safeParse`); a thrown `Error` is an `Err` carrying its
 * message.
 */
module ValidationUtils {
  import opened Common

  /** One step of an issue's path: an object key or an array index. */
  datatype PathSegment = Key(name: string) | Index(position: nat)

  datatype Issue = Issue(path: seq<PathSegment>, message: string)

  /** `String(segment)`. */
  function SegmentText(s: PathSegment): (r: string)
    ensures s.Index? ==> |r| >= 1 && forall i :: 0 <= i < |r| ==> IsDigit(r[i])
  {
    match s
    case Key(name) => name
    case Index(n) => NatToString(n)
  }

  function SegmentTexts(path: seq<PathSegment>): (r: seq<string>)
    ensures |r| == |path|
    ensures forall i :: 0 <= i < |path| ==> r[i] == SegmentText(path[i])
  {
    if |path| == 0 then [] else [SegmentText(path[0])] + SegmentTexts(path[1..])
  }

  /** `issue.path.join('.')`. */
  function PathText(path: seq<PathSegment>): string
  {
    Join(SegmentTexts(path), ".")
  }

  /** `${issue.path.join('.')}: ${issue.message}`. */
  function IssueText(issue: Issue): (r: string)
    ensures r == PathText(issue.path) + ": " + issue.message
    ensures |r| == |PathText(issue.path)| + 2 + |issue.message|
  {
    PathText(issue.path) + ": " + issue.message
  }

  function IssueTexts(issues: seq<Issue>): (r: seq<string>)
    ensures |r| == |issues|
    ensures forall i :: 0 <= i < |issues| ==> r[i] == IssueText(issues[i])
  {
    if |issues| == 0 then [] else [IssueText(issues[0])] + IssueTexts(issues[1..])
  }

  /** A nested path reads as its keys and indices joined with dots; the root path is empty. */
  lemma PathTextExamples()
    ensures PathText([Key("items"), Index(0), Key("quantity")]) == "items.0.quantity"
    ensures PathText([]) == ""
    ensures IssueText(Issue([], "At least one field must be updated")) == ": At least one field must be updated"
  {
    assert SegmentTexts([Key("items"), Index(0), Key("quantity")]) == ["items", "0", "quantity"];
    assert NatToString(0) == "0";
  }

  // ---------------------------------------------------------------------------
  // Running a schema

  /** `validateData`: the parsed value, or the caller's message, or every issue listed after "Validation failed: ". */
  function ValidateData<D, T>(parse: D -> Result<T, seq<Issue>>, data: D, errorMessage: Option<string>): (r: Result<T, string>)
    ensures parse(data).Ok? <==> r.Ok?
    ensures r.Ok? ==> r.value == parse(data).value
    ensures r.Err? && TruthyStr(errorMessage) ==> r.error == errorMessage.value
    ensures r.Err? && !TruthyStr(errorMessage) ==>
              r.error == "Validation failed: " + Join(IssueTexts(parse(data).error), ", ")
  {
    var result := parse(data);
    if result.Ok? then Ok(result.value)
    else Err(OrStr(errorMessage, "Validation failed: " + Join(IssueTexts(result.error), ", ")))
  }

  /** `safeValidateData`: the parsed value, or one "path: message" text per issue, in order. */
  function SafeValidateData<D, T>(parse: D -> Result<T, seq<Issue>>, data: D): (r: Result<T, seq<string>>)
    ensures parse(data).Ok? <==> r.Ok?
    ensures r.Ok? ==> r.value == parse(data).value
    ensures r.Err? ==> |r.error| == |parse(data).error|
                       && forall i :: 0 <= i < |r.error| ==> r.error[i] == IssueText(parse(data).error[i])
  {
    var result := parse(data);
    if result.Ok? then Ok(result.value) else Err(IssueTexts(result.error))
  }

  /** `isValidData`: whether the schema accepts the data. */
  function IsValidData<D, T>(parse: D -> Result<T, seq<Issue>>, data: D): (r: bool)
    ensures r <==> parse(data).Ok?
  {
    parse(data).Ok?
  }

  /**
   * The three entry points agree: the data is valid exactly when both
   * validators succeed, they then return the same value, and on failure the
   * default message of `validateData` is the texts of `safeValidateData`
   * joined with ", ".
   */
  lemma ValidatorsAgree<D, T>(parse: D -> Result<T, seq<Issue>>, data: D, errorMessage: Option<string>)
    ensures IsValidData(parse, data) <==> ValidateData(parse, data, errorMessage).Ok?
    ensures IsValidData(parse, data) <==> SafeValidateData(parse, data).Ok?
    ensures IsValidData(parse, data) ==> ValidateData(parse, data, errorMessage).value == SafeValidateData(parse, data).value
    ensures !IsValidData(parse, data) && !TruthyStr(errorMessage) ==>
              ValidateData(parse, data, errorMessage).error == "Validation failed: " + Join(SafeValidateData(parse, data).error, ", ")
  {
  }

  /** An empty custom message is falsy, so the issue list is reported instead. */
  lemma EmptyCustomMessageIgnored<D, T>(parse: D -> Result<T, seq<Issue>>, data: D)
    ensures ValidateData(parse, data, Some("")) == ValidateData(parse, data, None)
  {
  }

  // ---------------------------------------------------------------------------
  // Error records

  function IssueKey(issue: Issue): string
  {
    PathText(issue.path)
  }

  /** The record `getValidationErrors` builds: each issue in turn writes its message under its path. */
  function ErrorRecord(issues: seq<Issue>): map<string, string>
  {
    if |issues| == 0 then map[]
    else
      var last := issues[|issues| - 1];
      ErrorRecord(issues[..|issues| - 1])[IssueKey(last) := last.message]
  }

  /** `getValidationErrors`: the `forEach` that fills the record. */
  method GetValidationErrors(issues: seq<Issue>) returns (errors: map<string, string>)
    ensures errors == ErrorRecord(issues)
  {
    errors := map[];
    for n := 0 to |issues|
      invariant errors == ErrorRecord(issues[..n])
    {
      assert issues[..n + 1][..n] == issues[..n];
      errors := errors[IssueKey(issues[n]) := issues[n].message];
    }
    assert issues[..|issues|] == issues;
  }

  /** Issue `i` is the last one with its path. */
  predicate LastOfItsPath(issues: seq<Issue>, i: nat)
    requires i < |issues|
  {
    forall j :: i < j < |issues| ==> IssueKey(issues[j]) != IssueKey(issues[i])
  }

  /** The paths of the issues, as `path.join('.')` texts. */
  function PathsOf(issues: seq<Issue>): set<string>
  {
    set i | 0 <= i < |issues| :: IssueKey(issues[i])
  }

  /** The record has one entry per distinct path among the issues. */
  lemma {:induction false} ErrorRecordKeys(issues: seq<Issue>)
    ensures ErrorRecord(issues).Keys == PathsOf(issues)
  {
    if |issues| > 0 {
      var init := issues[..|issues| - 1];
      ErrorRecordKeys(init);
      assert forall i :: 0 <= i < |init| ==> init[i] == issues[i];
      assert PathsOf(issues) == PathsOf(init) + {IssueKey(issues[|issues| - 1])};
    }
  }

  /** The entry for a path holds the message of the last issue on it: a later issue overwrites an earlier one. */
  lemma {:induction false} ErrorRecordLastWins(issues: seq<Issue>, i: nat)
    requires i < |issues| && LastOfItsPath(issues, i)
    ensures IssueKey(issues[i]) in ErrorRecord(issues)
    ensures ErrorRecord(issues)[IssueKey(issues[i])] == issues[i].message
  {
    if i < |issues| - 1 {
      var init := issues[..|issues| - 1];
      assert init[i] == issues[i];
      assert LastOfItsPath(init, i) by {
        forall j | i < j < |init|
          ensures IssueKey(init[j]) != IssueKey(init[i])
        {
          assert init[j] == issues[j];
        }
      }
      ErrorRecordLastWins(init, i);
      assert IssueKey(issues[|issues| - 1]) != IssueKey(issues[i]);
    }
  }

  /** Each issue leaves an entry, and there are never more entries than issues. */
  lemma {:induction false} ErrorRecordSize(issues: seq<Issue>)
    ensures |ErrorRecord(issues)| <= |issues|
  {
    if |issues| > 0 {
      ErrorRecordSize(issues[..|issues| - 1]);
    }
  }

  // ---------------------------------------------------------------------------
  // Partial data

  /** A plain object as its entries: each key with its value, `None` standing for `undefined`. */
  type Entries<V> = seq<(string, Option<V>)>

  /**
   * The filter `([value]) => value !== undefined` as written: the pattern
   * binds the first element of each entry, which is its key, and a key is
   * always a string.
   */
  function KeepEntryAsWritten<V>(entry: (string, Option<V>)): bool
  {
    var value: Option<string> := Some(entry.0);
    value != None
  }

  /** `Object.fromEntries(Object.entries(data).filter(...))` with the filter as written. */
  function CleanDataAsWritten<V(!new)>(data: Entries<V>): (r: Entries<V>)
    ensures |r| <= |data|
  {
    Filter(KeepEntryAsWritten, data)
  }

  /** The filter as written removes nothing, so an `undefined` value reaches the schema. */
  lemma {:induction false} CleanDataAsWrittenKeepsAll<V(!new)>(data: Entries<V>)
    ensures CleanDataAsWritten(data) == data
  {
    if |data| > 0 {
      CleanDataAsWrittenKeepsAll(data[1..]);
      assert data == [data[0]] + data[1..];
    }
  }

  /** An entry whose value is `undefined` survives the clean-up as written. */
  lemma UndefinedValueSurvives()
    ensures CleanDataAsWritten<int>([("name", None)]) == [("name", None)]
  {
    CleanDataAsWrittenKeepsAll<int>([("name", None)]);
  }

  /**
   * `validatePartialData` as written: since the clean-up keeps every entry,
   * validating partial data is validating the data itself.
   */
  function ValidatePartialData<V(!new), T>(parse: Entries<V> -> Result<T, seq<Issue>>, data: Entries<V>): (r: Result<T, string>)
    ensures r == ValidateData(parse, data, None)
  {
    CleanDataAsWrittenKeepsAll(data);
    ValidateData(parse, CleanDataAsWritten(data), None)
  }

  /** The filter the comment describes: keep an entry whose value is defined. */
  function KeepDefined<V>(entry: (string, Option<V>)): bool
  {
    entry.1.Some?
  }

  /** The clean-up as intended: the entries with a defined value, in order. */
  function CleanData<V(!new)>(data: Entries<V>): (r: Entries<V>)
    ensures |r| <= |data|
    ensures forall e :: e in r <==> e in data && e.1.Some?
  {
    Filter(KeepDefined, data)
  }

  /**
   * `validatePartialData` as intended: the schema sees only the defined
   * values, so data without an `undefined` value is validated as it is.
   */
  function ValidatePartialDataIntended<V(!new), T>(parse: Entries<V> -> Result<T, seq<Issue>>, data: Entries<V>): (r: Result<T, string>)
    ensures (forall i :: 0 <= i < |data| ==> data[i].1.Some?) ==> r == ValidateData(parse, data, None)
  {
    CleanDataRemovesUndefined(data);
    ValidateData(parse, CleanData(data), None)
  }

  /** The intended clean-up leaves no `undefined` value and is the identity on data without one. */
  lemma {:induction false} CleanDataRemovesUndefined<V(!new)>(data: Entries<V>)
    ensures forall i :: 0 <= i < |CleanData(data)| ==> CleanData(data)[i].1.Some?
    ensures (forall i :: 0 <= i < |data| ==> data[i].1.Some?) ==> CleanData(data) == data
  {
    if |data| > 0 {
      CleanDataRemovesUndefined(data[1..]);
      assert data == [data[0]] + data[1..];
      var r := CleanData(data);
      forall i | 0 <= i < |r|
        ensures r[i].1.Some?
      {
        assert r[i] in r;
      }
    }
  }

  /**
   * With the intended clean-up the schema never sees an `undefined` value:
   * cleaning twice is cleaning once, and data without one is validated as it is.
   */
  lemma ValidatePartialDataIntendedMeaning<V(!new), T>(parse: Entries<V> -> Result<T, seq<Issue>>, data: Entries<V>)
    ensures ValidatePartialDataIntended(parse, CleanData(data)) == ValidatePartialDataIntended(parse, data)
    ensures (forall i :: 0 <= i < |data| ==> data[i].1.Some?) ==>
              ValidatePartialDataIntended(parse, data) == ValidateData(parse, data, None)
  {
    CleanDataRemovesUndefined(data);
    CleanDataRemovesUndefined(CleanData(data));
  }

  /** The entry the filter as written lets through is removed by the intended one. */
  lemma UndefinedValueRemoved()
    ensures CleanData<int>([("name", None)]) == []
    ensures CleanData<int>([("name", None), ("price", Some(3))]) == [("price", Some(3))]
  {
  }
}

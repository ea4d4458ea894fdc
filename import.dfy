/** The import command's bookkeeping: output-type validation, the link
    fixer, output path naming, the rows and counter each URL outcome
    produces, the extra report columns, the error path of the asynchronous
    callback, and the condition under which the report is saved. Fetching,
    HTML conversion and file writing are inputs: each URL comes with the
    outcome they had. */
module Import {
  import opened Strings
  import opened Options
  import opened ReportUtil
  import Elapsed
  import ConcurrencyUtil

  // ---------------------------------------------------------------------
  // Output types
  // ---------------------------------------------------------------------

  predicate KnownType(t: string) {
    t == "docx" || t == "md"
  }

  /** `validateOutputType`: the first type that is neither `docx` nor `md`,
      which it throws on; `None` when all are accepted. */
  function ValidateOutputType(types: seq<string>): (bad: Option<string>)
    ensures bad.None? <==> forall i :: 0 <= i < |types| ==> KnownType(types[i])
    ensures bad.Some? ==> exists i :: (0 <= i < |types| && types[i] == bad.value
      && !KnownType(bad.value) && forall j :: 0 <= j < i ==> KnownType(types[j]))
  {
    if types == [] then None
    else if !KnownType(types[0]) then Some(types[0])
    else
      var rest := ValidateOutputType(types[1..]);
      assert forall i :: 1 <= i < |types| ==> types[i] == types[1..][i - 1];
      if rest.Some? then
        ghost var i :| 0 <= i < |types[1..]| && types[1..][i] == rest.value
          && !KnownType(rest.value) && forall j :: 0 <= j < i ==> KnownType(types[1..][j]);
        assert types[i + 1] == rest.value;
        rest
      else rest
  }

  lemma DefaultTypesValid()
    ensures Split("docx", '|') == ["docx"]
    ensures ValidateOutputType(Split("md|docx", '|')) == None
  {
    SplitWithoutSeparator("docx", '|');
    SplitAtSeparator("md", '|', "docx");
    assert "md|docx" == "md" + ['|'] + "docx";
  }

  // ---------------------------------------------------------------------
  // fixLinks
  // ---------------------------------------------------------------------

  /** One attribute value after the fix: a protocol-relative value gets the
      page's protocol in front. */
  function FixValue(protocol: string, v: string): (w: string)
    ensures StartsWith(v, "//") ==> w == protocol + v
    ensures !StartsWith(v, "//") ==> w == v
  {
    if StartsWith(v, "//") then protocol + v else v
  }

  /** One element's attributes after fixing attribute `name`. */
  function FixElement(protocol: string, attrs: map<string, string>, name: string): map<string, string> {
    if name in attrs then attrs[name := FixValue(protocol, attrs[name])] else attrs
  }

  /** Every element after fixing attribute `name`. */
  function FixAttribute(protocol: string, elements: seq<map<string, string>>, name: string): (r: seq<map<string, string>>)
    ensures |r| == |elements|
    ensures forall i :: 0 <= i < |r| ==> r[i] == FixElement(protocol, elements[i], name)
  {
    seq(|elements|, i requires 0 <= i < |elements| => FixElement(protocol, elements[i], name))
  }

  /** Every element after fixing each attribute of `names` in turn. */
  function FixLinksSpec(protocol: string, elements: seq<map<string, string>>, names: seq<string>): seq<map<string, string>> {
    if names == [] then elements
    else FixAttribute(protocol, FixLinksSpec(protocol, elements, names[..|names| - 1]), names[|names| - 1])
  }

  /** `fixLinks(url, document, attrNames)` over the elements' attribute maps,
      in place: for each attribute name, every element having it. */
  method FixLinks(protocol: string, elements: array<map<string, string>>, attrNames: seq<string>)
    modifies elements
    ensures elements[..] == FixLinksSpec(protocol, old(elements[..]), attrNames)
  {
    for n := 0 to |attrNames|
      invariant elements[..] == FixLinksSpec(protocol, old(elements[..]), attrNames[..n])
    {
      assert attrNames[..n + 1][..n] == attrNames[..n];
      var attrName := attrNames[n];
      ghost var before := elements[..];
      for i := 0 to elements.Length
        invariant forall j :: 0 <= j < i ==> elements[j] == FixElement(protocol, before[j], attrName)
        invariant forall j :: i <= j < elements.Length ==> elements[j] == before[j]
      {
        if attrName in elements[i] {
          var val := elements[i][attrName];
          if StartsWith(val, "//") {
            var newVal := protocol + val;
            elements[i] := elements[i][attrName := newVal];
          }
        }
      }
      assert elements[..] == FixAttribute(protocol, before, attrName);
    }
    assert attrNames[..|attrNames|] == attrNames;
  }

  /** A value with a protocol that does not start with '/' is fixed once and
      for all: the fixed value no longer starts with "//". */
  lemma FixValueIdempotent(protocol: string, v: string)
    requires protocol != [] && protocol[0] != '/'
    ensures !StartsWith(FixValue(protocol, v), "//") || FixValue(protocol, v) == v
    ensures FixValue(protocol, FixValue(protocol, v)) == FixValue(protocol, v)
  {
    if StartsWith(v, "//") {
      assert (protocol + v)[0] == protocol[0];
    }
  }

  lemma FixElementIdempotent(protocol: string, attrs: map<string, string>, name: string)
    requires protocol != [] && protocol[0] != '/'
    ensures FixElement(protocol, FixElement(protocol, attrs, name), name) == FixElement(protocol, attrs, name)
  {
    if name in attrs {
      FixValueIdempotent(protocol, attrs[name]);
    }
  }

  /** Fixing is idempotent: a second pass over the same attributes changes
      nothing. */
  lemma {:induction false} FixLinksIdempotent(protocol: string, elements: seq<map<string, string>>, names: seq<string>)
    requires protocol != [] && protocol[0] != '/'
    ensures FixLinksSpec(protocol, FixLinksSpec(protocol, elements, names), names) == FixLinksSpec(protocol, elements, names)
  {
    var once := FixLinksSpec(protocol, elements, names);
    forall k | 0 <= k <= |names|
      ensures FixLinksSpec(protocol, once, names[..k]) == once
    {
      FixLinksStable(protocol, elements, names, k);
    }
    assert names[..|names|] == names;
  }

  /** Each attribute value of a fixed document is fixed for every name of
      the list. */
  ghost predicate FixedFor(protocol: string, elements: seq<map<string, string>>, name: string) {
    forall i :: 0 <= i < |elements| ==> FixElement(protocol, elements[i], name) == elements[i]
  }

  /** After fixing attribute `name`, every element is fixed for it. */
  lemma FixAttributeFixes(protocol: string, elements: seq<map<string, string>>, name: string)
    requires protocol != [] && protocol[0] != '/'
    ensures FixedFor(protocol, FixAttribute(protocol, elements, name), name)
  {
    var r := FixAttribute(protocol, elements, name);
    forall i | 0 <= i < |r|
      ensures FixElement(protocol, r[i], name) == r[i]
    {
      FixElementIdempotent(protocol, elements[i], name);
    }
  }

  /** Fixing attribute `name` keeps every element fixed for `other`. */
  lemma FixAttributeKeeps(protocol: string, elements: seq<map<string, string>>, name: string, other: string)
    requires protocol != [] && protocol[0] != '/'
    requires FixedFor(protocol, elements, other)
    ensures FixedFor(protocol, FixAttribute(protocol, elements, name), other)
  {
    var r := FixAttribute(protocol, elements, name);
    forall i | 0 <= i < |r|
      ensures FixElement(protocol, r[i], other) == r[i]
    {
      FixElementIdempotent(protocol, elements[i], name);
      if name != other && other in elements[i] {
        assert FixElement(protocol, elements[i], other) == elements[i];
        assert elements[i][other] == FixValue(protocol, elements[i][other]);
      }
    }
  }

  lemma {:induction false} FixLinksFixes(protocol: string, elements: seq<map<string, string>>, names: seq<string>)
    requires protocol != [] && protocol[0] != '/'
    ensures forall j :: 0 <= j < |names| ==> FixedFor(protocol, FixLinksSpec(protocol, elements, names), names[j])
  {
    if names != [] {
      var init := names[..|names| - 1];
      FixLinksFixes(protocol, elements, init);
      var prev := FixLinksSpec(protocol, elements, init);
      forall j | 0 <= j < |names|
        ensures FixedFor(protocol, FixLinksSpec(protocol, elements, names), names[j])
      {
        if j < |names| - 1 {
          assert names[j] == init[j];
          FixAttributeKeeps(protocol, prev, names[|names| - 1], names[j]);
        } else {
          FixAttributeFixes(protocol, prev, names[j]);
        }
      }
    }
  }

  lemma {:induction false} FixLinksStable(protocol: string, elements: seq<map<string, string>>, names: seq<string>, k: nat)
    requires protocol != [] && protocol[0] != '/'
    requires k <= |names|
    ensures FixLinksSpec(protocol, FixLinksSpec(protocol, elements, names), names[..k]) == FixLinksSpec(protocol, elements, names)
  {
    var once := FixLinksSpec(protocol, elements, names);
    if k > 0 {
      FixLinksStable(protocol, elements, names, k - 1);
      assert names[..k][..k - 1] == names[..k - 1];
      FixLinksFixes(protocol, elements, names);
      var name := names[k - 1];
      assert FixedFor(protocol, once, name);
      assert FixAttribute(protocol, once, name) == once;
    }
  }

  /** Values that do not start with "//" and attributes not in the list are
      left as they were. */
  lemma {:induction false} FixLinksLeavesOthers(protocol: string, elements: seq<map<string, string>>, names: seq<string>)
    ensures |FixLinksSpec(protocol, elements, names)| == |elements|
    ensures forall i :: 0 <= i < |elements| ==> FixLinksSpec(protocol, elements, names)[i].Keys == elements[i].Keys
    ensures forall i, a :: 0 <= i < |elements| && a in elements[i] && (a !in names || !StartsWith(elements[i][a], "//")) ==>
      FixLinksSpec(protocol, elements, names)[i][a] == elements[i][a]
  {
    if names != [] {
      var init := names[..|names| - 1];
      var last := names[|names| - 1];
      FixLinksLeavesOthers(protocol, elements, init);
      var prev := FixLinksSpec(protocol, elements, init);
      var r := FixLinksSpec(protocol, elements, names);
      forall i, a | 0 <= i < |elements| && a in elements[i] && (a !in names || !StartsWith(elements[i][a], "//"))
        ensures r[i][a] == elements[i][a]
      {
        assert a !in names ==> a !in init;
        assert a in elements[i] && (a !in init || !StartsWith(elements[i][a], "//"));
        assert prev[i][a] == elements[i][a];
      }
    }
  }

  // ---------------------------------------------------------------------
  // saveOutput
  // ---------------------------------------------------------------------

  /** The requested types the conversion produced, in requested order. */
  function PresentTypes(types: seq<string>, result: map<string, string>): (ts: seq<string>)
    ensures forall t :: t in ts <==> t in types && t in result
  {
    if types == [] then []
    else
      var prev := PresentTypes(types[..|types| - 1], result);
      var t := types[|types| - 1];
      assert forall u :: u in types <==> u in types[..|types| - 1] || u == t;
      if t in result then prev + [t] else prev
  }

  /** The files `saveOutput(path, types, result)` writes: `path.t` for each
      present type. */
  function SavedPaths(path: string, types: seq<string>, result: map<string, string>): (files: seq<string>)
    ensures var ts := PresentTypes(types, result);
      |files| == |ts| && forall i :: 0 <= i < |ts| ==> files[i] == path + "." + ts[i]
  {
    var ts := PresentTypes(types, result);
    seq(|ts|, i requires 0 <= i < |ts| => path + "." + ts[i])
  }

  /** `saveOutput`: the loop over the requested types; each present one is
      written (file writing is not modelled) and its path collected. */
  method SaveOutput(path: string, types: seq<string>, result: map<string, string>) returns (savedFiles: seq<string>)
    ensures savedFiles == SavedPaths(path, types, result)
    ensures forall f :: f in savedFiles <==> exists t :: t in types && t in result && f == path + "." + t
  {
    savedFiles := [];
    for i := 0 to |types|
      invariant savedFiles == SavedPaths(path, types[..i], result)
    {
      assert types[..i + 1][..i] == types[..i];
      var t := types[i];
      if t in result {
        var filePath := path + "." + t;
        savedFiles := savedFiles + [filePath];
      }
    }
    assert types[..|types|] == types;
    var ts := PresentTypes(types, result);
    forall f | f in savedFiles
      ensures exists t :: t in types && t in result && f == path + "." + t
    {
      var i :| 0 <= i < |savedFiles| && savedFiles[i] == f;
      assert ts[i] in ts;
    }
    forall t | t in types && t in result
      ensures path + "." + t in savedFiles
    {
      var i :| 0 <= i < |ts| && ts[i] == t;
      assert savedFiles[i] == path + "." + t;
    }
  }

  // ---------------------------------------------------------------------
  // extraCols
  // ---------------------------------------------------------------------

  /** The extra columns after the keys of one report: each key not yet
      there is appended, in key order. */
  function MergeCols(cols: seq<string>, keys: seq<string>): seq<string> {
    if keys == [] then cols
    else
      var prev := MergeCols(cols, keys[..|keys| - 1]);
      var key := keys[|keys| - 1];
      if key in prev then prev else prev + [key]
  }

  predicate Distinct(s: seq<string>) {
    forall i, j :: 0 <= i < j < |s| ==> s[i] != s[j]
  }

  /** The columns so far stay first and in place; every key is a column
      afterwards; nothing else is added; no column appears twice. */
  lemma {:induction false} MergeColsFacts(cols: seq<string>, keys: seq<string>)
    ensures var r := MergeCols(cols, keys);
      && |cols| <= |r| && r[..|cols|] == cols
      && (forall k :: k in keys ==> k in r)
      && (forall c :: c in r ==> c in cols || c in keys)
      && (Distinct(cols) ==> Distinct(r))
      && ((forall k :: k in keys ==> k in cols) ==> r == cols)
  {
    if keys != [] {
      var init := keys[..|keys| - 1];
      MergeColsFacts(cols, init);
      var prev := MergeCols(cols, init);
      assert forall k :: k in keys ==> k in init || k == keys[|keys| - 1];
      var key := keys[|keys| - 1];
      if key !in prev {
        assert (prev + [key])[..|cols|] == prev[..|cols|];
      }
      if forall k :: k in keys ==> k in cols {
        assert key in cols;
        assert key in prev[..|cols|];
      }
    }
  }

  /** The keys of a report come in first-seen order: merging the same keys
      twice changes nothing. */
  lemma MergeColsIdempotent(cols: seq<string>, keys: seq<string>)
    ensures MergeCols(MergeCols(cols, keys), keys) == MergeCols(cols, keys)
  {
    MergeColsFacts(cols, keys);
    MergeColsFacts(MergeCols(cols, keys), keys);
  }

  // ---------------------------------------------------------------------
  // processUrl and asyncCallback
  // ---------------------------------------------------------------------

  /** What the conversion of a fetched page did: it threw (while parsing,
      transforming or saving), or it produced the outputs by type, the
      sanitized document path, and possibly a report (its keys in
      `Object.keys` order and its values). */
  datatype Conversion =
    | Threw(message: string)
    | Converted(docPath: string, outputs: map<string, string>, reportKeys: seq<string>, report: Option<map<string, Value>>)

  /** What fetching a URL did. */
  datatype FetchOutcome =
    | FetchFailed(message: string)
    | NotOk(status: int)
    | Redirected(finalUrl: string)
    | Fetched(conversion: Conversion)

  /** The rows one URL adds to the report. */
  function OutcomeRows(url: string, outcome: FetchOutcome, outputTypes: seq<string>): seq<StatusRow> {
    match outcome
    case FetchFailed(_) => []
    case NotOk(status) => [StatusRow(url, None, None, "Invalid: " + IntToString(status), None, None)]
    case Redirected(finalUrl) => [StatusRow(url, None, None, "Redirect", Some(finalUrl), None)]
    case Fetched(Threw(message)) => [StatusRow(url, None, None, "Error: " + message, None, None)]
    case Fetched(Converted(docPath, outputs, _, report)) =>
      SuccessRows(url, docPath, SavedPaths(docPath, outputTypes, outputs), ReportOrEmpty(report))
  }

  /** One `Success` row per saved file. */
  function SuccessRows(url: string, docPath: string, files: seq<string>, report: map<string, Value>): seq<StatusRow> {
    seq(|files|, i requires 0 <= i < |files| => StatusRow(url, Some(docPath), Some(files[i]), "Success", None, Some(report)))
  }

  /** Every outcome but a converted page gives exactly one row (none when
      the fetch itself failed); a converted page gives one `Success` row per
      saved output, in the order of the requested types. Every row is about
      `url`; only an error row has a status starting "Error: ", only a
      redirect carries a redirect target. */
  lemma OutcomeRowsShape(url: string, outcome: FetchOutcome, outputTypes: seq<string>)
    ensures var rows := OutcomeRows(url, outcome, outputTypes);
      && (forall r :: r in rows ==> r.url == url)
      && (rows == [] <==> (outcome.FetchFailed?
            || (outcome.Fetched? && outcome.conversion.Converted? && PresentTypes(outputTypes, outcome.conversion.outputs) == [])))
      && (outcome.NotOk? || outcome.Redirected? || (outcome.Fetched? && outcome.conversion.Threw?) ==> |rows| == 1)
      && (outcome.Redirected? ==> rows[0].status == "Redirect" && rows[0].redirect == Some(outcome.finalUrl))
      && (forall r :: r in rows && r.redirect.Some? ==> outcome.Redirected?)
      && (outcome.Fetched? && outcome.conversion.Threw? ==> StartsWith(rows[0].status, "Error: "))
      && (outcome.Fetched? && outcome.conversion.Converted? ==>
            var c := outcome.conversion;
            var ts := PresentTypes(outputTypes, c.outputs);
            |rows| == |ts|
            && forall i :: 0 <= i < |rows| ==>
                 rows[i].status == "Success" && rows[i].path == Some(c.docPath)
                 && rows[i].file == Some(c.docPath + "." + ts[i]))
  {
    if outcome.Fetched? && outcome.conversion.Threw? {
      assert ("Error: " + outcome.conversion.message)[..7] == "Error: ";
    }
  }

  /** `result.report ? result.report : {}`. */
  function ReportOrEmpty(report: Option<map<string, Value>>): map<string, Value> {
    if report.Some? then report.value else map[]
  }

  /** The keys a converted page adds to the extra columns. */
  function OutcomeKeys(outcome: FetchOutcome): seq<string> {
    if outcome.Fetched? && outcome.conversion.Converted? && outcome.conversion.report.Some?
    then outcome.conversion.reportKeys else []
  }

  /** The counter after an error escaped `processUrl` for item `index`, as
      written: raised to `index + 1` when not already past it. */
  function EscapedCountAsWritten(imported: nat, index: nat): (n: nat)
    ensures n >= imported && n >= index + 1
  {
    if imported <= index then index + 1 else imported
  }

  /** The counter after an escaped error as evidently intended: one more
      item done, like every other branch. */
  function EscapedCount(imported: nat): (n: nat)
    ensures n == imported + 1
  {
    imported + 1
  }

  /** The import status the handler threads through every call. */
  class ImportStatus {
    var imported: nat
    const total: nat
    var rows: seq<StatusRow>
    var extraCols: seq<string>
    var timeStr: string
    const outputTypes: seq<string>

    constructor (total: nat, outputTypes: seq<string>)
      ensures imported == 0 && this.total == total && rows == [] && extraCols == [] && timeStr == ""
      ensures this.outputTypes == outputTypes
    {
      imported := 0;
      this.total := total;
      rows := [];
      extraCols := [];
      timeStr := "";
      this.outputTypes := outputTypes;
    }

    /** `updateTimer`: the elapsed time as text (with whole minutes and
        hours; see `Elapsed.ElapsedAsWritten`). */
    method UpdateTimer(elapsedMs: nat)
      modifies this`timeStr
      ensures timeStr == Elapsed.TimerText(elapsedMs)
    {
      timeStr := Elapsed.TimerText(elapsedMs);
    }

    /** The `forEach` over the report keys: push each key not yet a column. */
    method AddExtraCols(keys: seq<string>)
      modifies this`extraCols
      ensures extraCols == MergeCols(old(extraCols), keys)
    {
      for i := 0 to |keys|
        invariant extraCols == MergeCols(old(extraCols), keys[..i])
      {
        assert keys[..i + 1][..i] == keys[..i];
        if keys[i] !in extraCols {
          extraCols := extraCols + [keys[i]];
        }
      }
      assert keys[..|keys|] == keys;
    }

    /** `processUrl` for one URL and its outcome: every branch but an escaped
        fetch error counts the URL once and adds its rows; a converted page
        also merges its report keys into the extra columns and updates the
        elapsed time. An escaped error changes nothing and is returned. */
    method ProcessUrl(url: string, outcome: FetchOutcome, elapsedMs: nat) returns (escaped: Option<string>)
      modifies this`imported, this`rows, this`extraCols, this`timeStr
      ensures escaped.Some? <==> outcome.FetchFailed?
      ensures outcome.FetchFailed? ==>
        && escaped == Some(outcome.message) && imported == old(imported) && rows == old(rows)
        && extraCols == old(extraCols) && timeStr == old(timeStr)
      ensures !outcome.FetchFailed? ==> imported == old(imported) + 1
      ensures rows == old(rows) + OutcomeRows(url, outcome, outputTypes)
      ensures extraCols == MergeCols(old(extraCols), OutcomeKeys(outcome))
      ensures Converts(outcome) ==> timeStr == Elapsed.TimerText(elapsedMs)
      ensures !Converts(outcome) ==> timeStr == old(timeStr)
    {
      escaped := None;
      match outcome
      case FetchFailed(message) =>
        escaped := Some(message);
      case NotOk(status) =>
        imported := imported + 1;
        rows := rows + [StatusRow(url, None, None, "Invalid: " + IntToString(status), None, None)];
      case Redirected(finalUrl) =>
        imported := imported + 1;
        rows := rows + [StatusRow(url, None, None, "Redirect", Some(finalUrl), None)];
      case Fetched(Threw(message)) =>
        imported := imported + 1;
        rows := rows + [StatusRow(url, None, None, "Error: " + message, None, None)];
      case Fetched(Converted(docPath, outputs, reportKeys, report)) =>
        var files := SaveOutput(docPath, outputTypes, outputs);
        UpdateTimer(elapsedMs);
        imported := imported + 1;
        var rep := ReportOrEmpty(report);
        var keys := if report.Some? then reportKeys else [];
        AddExtraCols(keys);
        AddSuccessRows(url, docPath, files, rep);
    }

    /** The loop over the saved files: one `Success` row each. */
    method AddSuccessRows(url: string, docPath: string, files: seq<string>, report: map<string, Value>)
      modifies this`rows
      ensures rows == old(rows) + SuccessRows(url, docPath, files, report)
    {
      for i := 0 to |files|
        invariant rows == old(rows) + SuccessRows(url, docPath, files[..i], report)
      {
        assert SuccessRows(url, docPath, files[..i + 1], report)
          == SuccessRows(url, docPath, files[..i], report) + [StatusRow(url, Some(docPath), Some(files[i]), "Success", None, Some(report))];
        rows := rows + [StatusRow(url, Some(docPath), Some(files[i]), "Success", None, Some(report))];
      }
      assert files[..|files|] == files;
    }

    /** The callback `processAll` runs for item `index`: `processUrl`, and
        on an escaped error an error row and the counter moved on by one (the
        intended count; see `EscapedCountAsWritten`). It always resolves. */
    method AsyncCallback(url: string, index: nat, outcome: FetchOutcome, elapsedMs: nat)
      modifies this`imported, this`rows, this`extraCols, this`timeStr
      ensures imported == old(imported) + 1
      ensures !outcome.FetchFailed? ==> rows == old(rows) + OutcomeRows(url, outcome, outputTypes)
      ensures outcome.FetchFailed? ==> rows == old(rows) + [StatusRow(url, None, None, "Error: " + outcome.message, None, None)]
      ensures extraCols == MergeCols(old(extraCols), OutcomeKeys(outcome))
      ensures Converts(outcome) ==> timeStr == Elapsed.TimerText(elapsedMs)
      ensures !Converts(outcome) ==> timeStr == old(timeStr)
    {
      var escaped := ProcessUrl(url, outcome, elapsedMs);
      if escaped.Some? {
        imported := EscapedCount(imported);
        rows := rows + [StatusRow(url, None, None, "Error: " + escaped.value, None, None)];
      }
    }

    /** The status after the first `i` URLs, from `imported0`, `rows0`,
        `cols0` and `time0`: each URL counted once, the rows of every outcome
        in order, the report keys merged in order, and the elapsed text of the
        last converted page. */
    ghost predicate Processed(imported0: nat, rows0: seq<StatusRow>, cols0: seq<string>, time0: string,
                              urls: seq<string>, outcomes: seq<FetchOutcome>, elapsedMs: seq<nat>, i: nat)
      requires i <= |urls| == |outcomes| == |elapsedMs|
      reads this
    {
      && imported == imported0 + i
      && rows == rows0 + AllRows(urls[..i], outcomes[..i], outputTypes)
      && extraCols == ColsAfter(cols0, outcomes[..i])
      && timeStr == TimerAfter(time0, outcomes[..i], elapsedMs[..i])
    }

    /** `processUrl` on URL `i` moves `Processed` one URL further unless an
        error escapes, which leaves the status as it was. */
    method ProcessNext(urls: seq<string>, outcomes: seq<FetchOutcome>, elapsedMs: seq<nat>, i: nat,
                       ghost imported0: nat, ghost rows0: seq<StatusRow>, ghost cols0: seq<string>, ghost time0: string)
        returns (escaped: Option<string>)
      requires i < |urls| == |outcomes| == |elapsedMs|
      requires Processed(imported0, rows0, cols0, time0, urls, outcomes, elapsedMs, i)
      modifies this`imported, this`rows, this`extraCols, this`timeStr
      ensures escaped.Some? <==> outcomes[i].FetchFailed?
      ensures escaped.Some? ==> escaped == Some(outcomes[i].message) && Processed(imported0, rows0, cols0, time0, urls, outcomes, elapsedMs, i)
      ensures escaped.None? ==> Processed(imported0, rows0, cols0, time0, urls, outcomes, elapsedMs, i + 1)
    {
      AllRowsSnoc(urls, outcomes, outputTypes, i);
      AfterSnoc(cols0, time0, outcomes, elapsedMs, i);
      ghost var done := AllRows(urls[..i], outcomes[..i], outputTypes);
      escaped := ProcessUrl(urls[i], outcomes[i], elapsedMs[i]);
      AppendAssoc(rows0, done, OutcomeRows(urls[i], outcomes[i], outputTypes));
    }

    /** The path taken when `async` is below one: `processUrl` on each URL in
        turn (`elapsedMs[i]` is the clock when URL `i` finishes). The first
        escaped error aborts the rest: the status is then that of the URLs
        before it, and the error is returned. */
    method ProcessSequentially(urls: seq<string>, outcomes: seq<FetchOutcome>, elapsedMs: seq<nat>) returns (escaped: Option<string>)
      requires |outcomes| == |urls| == |elapsedMs|
      modifies this`imported, this`rows, this`extraCols, this`timeStr
      ensures escaped.None? <==> forall i :: 0 <= i < |outcomes| ==> !outcomes[i].FetchFailed?
      ensures escaped.Some? ==> FirstFailed(outcomes) < |outcomes| && escaped == Some(outcomes[FirstFailed(outcomes)].message)
      ensures Processed(old(imported), old(rows), old(extraCols), old(timeStr), urls, outcomes, elapsedMs, FirstFailed(outcomes))
      ensures escaped.None? ==> imported == old(imported) + |urls|
      ensures escaped.None? ==> rows == old(rows) + AllRows(urls, outcomes, outputTypes)
    {
      ghost var imported0, rows0, cols0, time0 := imported, rows, extraCols, timeStr;
      for i := 0 to |urls|
        invariant i <= FirstFailed(outcomes)
        invariant Processed(imported0, rows0, cols0, time0, urls, outcomes, elapsedMs, i)
      {
        escaped := ProcessNext(urls, outcomes, elapsedMs, i, imported0, rows0, cols0, time0);
        if escaped.Some? {
          return;
        }
      }
      escaped := None;
      assert urls[..|urls|] == urls && outcomes[..|urls|] == outcomes;
    }
  }

  /** Whether `processUrl` converted the page, which is when it updates the
      elapsed time. */
  predicate Converts(outcome: FetchOutcome) {
    outcome.Fetched? && outcome.conversion.Converted?
  }

  /** The extra columns after a sequence of outcomes, in order. */
  function ColsAfter(cols: seq<string>, outcomes: seq<FetchOutcome>): seq<string> {
    if outcomes == [] then cols
    else MergeCols(ColsAfter(cols, outcomes[..|outcomes| - 1]), OutcomeKeys(outcomes[|outcomes| - 1]))
  }

  /** The elapsed-time text after a sequence of outcomes: that of the last
      converted page, or the text before when none converted. */
  function TimerAfter(timeStr: string, outcomes: seq<FetchOutcome>, elapsedMs: seq<nat>): string
    requires |outcomes| == |elapsedMs|
  {
    if outcomes == [] then timeStr
    else if Converts(outcomes[|outcomes| - 1]) then Elapsed.TimerText(elapsedMs[|outcomes| - 1])
    else TimerAfter(timeStr, outcomes[..|outcomes| - 1], elapsedMs[..|outcomes| - 1])
  }

  /** The position of the first failed fetch, or the length when none
      failed. */
  function FirstFailed(outcomes: seq<FetchOutcome>): (k: nat)
    ensures k <= |outcomes|
    ensures forall j :: 0 <= j < k ==> !outcomes[j].FetchFailed?
    ensures k < |outcomes| ==> outcomes[k].FetchFailed?
  {
    if outcomes == [] || outcomes[0].FetchFailed? then 0
    else 1 + FirstFailed(outcomes[1..])
  }

  /** The extra columns after several pages are the columns before, then
      every report key not seen yet, in first-seen order. */
  lemma ColsAfterFacts(cols: seq<string>, outcomes: seq<FetchOutcome>)
    ensures var r := ColsAfter(cols, outcomes);
      && |cols| <= |r| && r[..|cols|] == cols
      && (forall i, k :: 0 <= i < |outcomes| && k in OutcomeKeys(outcomes[i]) ==> k in r)
      && (forall c :: c in r ==> c in cols || exists i :: 0 <= i < |outcomes| && c in OutcomeKeys(outcomes[i]))
      && (Distinct(cols) ==> Distinct(r))
  {
    ColsAfterKeeps(cols, outcomes);
    ColsAfterCovers(cols, outcomes);
    ColsAfterOnly(cols, outcomes);
  }

  /** The old columns stay first, and no duplicate is added. */
  lemma {:induction false} ColsAfterKeeps(cols: seq<string>, outcomes: seq<FetchOutcome>)
    ensures var r := ColsAfter(cols, outcomes);
      && |cols| <= |r| && r[..|cols|] == cols && (Distinct(cols) ==> Distinct(r))
  {
    if outcomes != [] {
      var n := |outcomes| - 1;
      ColsAfterKeeps(cols, outcomes[..n]);
      var prev := ColsAfter(cols, outcomes[..n]);
      MergeColsFacts(prev, OutcomeKeys(outcomes[n]));
      var r := ColsAfter(cols, outcomes);
      assert r[..|prev|][..|cols|] == r[..|cols|];
    }
  }

  /** Every report key of every page becomes a column. */
  lemma {:induction false} ColsAfterCovers(cols: seq<string>, outcomes: seq<FetchOutcome>)
    ensures forall i, k :: 0 <= i < |outcomes| && k in OutcomeKeys(outcomes[i]) ==> k in ColsAfter(cols, outcomes)
  {
    if outcomes != [] {
      var n := |outcomes| - 1;
      var init := outcomes[..n];
      ColsAfterCovers(cols, init);
      var prev := ColsAfter(cols, init);
      MergeColsFacts(prev, OutcomeKeys(outcomes[n]));
      var r := ColsAfter(cols, outcomes);
      forall i, k | 0 <= i < |outcomes| && k in OutcomeKeys(outcomes[i])
        ensures k in r
      {
        if i < n {
          assert outcomes[i] == init[i];
          assert k in prev;
          assert k in r[..|prev|];
        }
      }
    }
  }

  /** No column is added that is not a report key of some page. */
  lemma {:induction false} ColsAfterOnly(cols: seq<string>, outcomes: seq<FetchOutcome>)
    ensures forall c :: c in ColsAfter(cols, outcomes) ==>
      c in cols || exists i :: 0 <= i < |outcomes| && c in OutcomeKeys(outcomes[i])
  {
    if outcomes != [] {
      var n := |outcomes| - 1;
      var init := outcomes[..n];
      ColsAfterOnly(cols, init);
      var prev := ColsAfter(cols, init);
      MergeColsFacts(prev, OutcomeKeys(outcomes[n]));
      forall c | c in ColsAfter(cols, outcomes)
        ensures c in cols || exists i :: 0 <= i < |outcomes| && c in OutcomeKeys(outcomes[i])
      {
        if c in prev && c !in cols {
          var i :| 0 <= i < |init| && c in OutcomeKeys(init[i]);
          assert outcomes[i] == init[i];
        }
      }
    }
  }

  /** The position of the last converted page, or -1 when none converted. */
  function LastConversion(outcomes: seq<FetchOutcome>): (k: int)
    ensures -1 <= k < |outcomes|
    ensures k >= 0 ==> Converts(outcomes[k])
    ensures forall j :: k < j < |outcomes| ==> !Converts(outcomes[j])
  {
    if outcomes == [] then -1
    else if Converts(outcomes[|outcomes| - 1]) then |outcomes| - 1
    else
      var k := LastConversion(outcomes[..|outcomes| - 1]);
      assert forall j :: k < j < |outcomes| - 1 ==> outcomes[j] == outcomes[..|outcomes| - 1][j];
      k
  }

  /** The elapsed text after several outcomes is that of the last converted
      page, and the text before when no page converted. */
  lemma {:induction false} TimerAfterLastConversion(timeStr: string, outcomes: seq<FetchOutcome>, elapsedMs: seq<nat>)
    requires |outcomes| == |elapsedMs|
    ensures var k := LastConversion(outcomes);
      TimerAfter(timeStr, outcomes, elapsedMs) == if k < 0 then timeStr else Elapsed.TimerText(elapsedMs[k])
  {
    if outcomes != [] && !Converts(outcomes[|outcomes| - 1]) {
      var n := |outcomes| - 1;
      TimerAfterLastConversion(timeStr, outcomes[..n], elapsedMs[..n]);
      var k := LastConversion(outcomes[..n]);
      assert LastConversion(outcomes) == k;
      assert TimerAfter(timeStr, outcomes, elapsedMs) == TimerAfter(timeStr, outcomes[..n], elapsedMs[..n]);
      if k >= 0 {
        assert elapsedMs[..n][k] == elapsedMs[k];
      }
    }
  }

  /** One more outcome extends the columns and the elapsed text by that
      outcome's share. */
  lemma AfterSnoc(cols: seq<string>, timeStr: string, outcomes: seq<FetchOutcome>, elapsedMs: seq<nat>, i: nat)
    requires i < |outcomes| == |elapsedMs|
    ensures ColsAfter(cols, outcomes[..i + 1]) == MergeCols(ColsAfter(cols, outcomes[..i]), OutcomeKeys(outcomes[i]))
    ensures TimerAfter(timeStr, outcomes[..i + 1], elapsedMs[..i + 1]) ==
      if Converts(outcomes[i]) then Elapsed.TimerText(elapsedMs[i]) else TimerAfter(timeStr, outcomes[..i], elapsedMs[..i])
  {
    assert outcomes[..i + 1][..i] == outcomes[..i] && elapsedMs[..i + 1][..i] == elapsedMs[..i];
  }

  lemma AllRowsSnoc(urls: seq<string>, outcomes: seq<FetchOutcome>, outputTypes: seq<string>, i: nat)
    requires |outcomes| == |urls| && i < |urls|
    ensures AllRows(urls[..i + 1], outcomes[..i + 1], outputTypes)
      == AllRows(urls[..i], outcomes[..i], outputTypes) + OutcomeRows(urls[i], outcomes[i], outputTypes)
  {
    assert urls[..i + 1][..i] == urls[..i] && outcomes[..i + 1][..i] == outcomes[..i];
  }

  /** The rows of a sequence of URLs processed in order. */
  function AllRows(urls: seq<string>, outcomes: seq<FetchOutcome>, outputTypes: seq<string>): seq<StatusRow>
    requires |outcomes| == |urls|
  {
    if urls == [] then []
    else
      AllRows(urls[..|urls| - 1], outcomes[..|urls| - 1], outputTypes)
        + OutcomeRows(urls[|urls| - 1], outcomes[|urls| - 1], outputTypes)
  }

  // ---------------------------------------------------------------------
  // The escaped-error counter over a run
  // ---------------------------------------------------------------------

  /** The indices of the items whose callback has finished, in the order
      they finished, and whether each escaped `processUrl` with an error. */
  datatype Finish = Finish(index: nat, escaped: bool)

  /** The counter after a sequence of finishes, as written. */
  function CounterAsWritten(finishes: seq<Finish>): nat {
    if finishes == [] then 0
    else
      var prev := CounterAsWritten(finishes[..|finishes| - 1]);
      var f := finishes[|finishes| - 1];
      if f.escaped then EscapedCountAsWritten(prev, f.index) else prev + 1
  }

  /** The counter after a sequence of finishes, as intended. */
  function Counter(finishes: seq<Finish>): nat {
    if finishes == [] then 0
    else
      var prev := Counter(finishes[..|finishes| - 1]);
      var f := finishes[|finishes| - 1];
      if f.escaped then EscapedCount(prev) else prev + 1
  }

  /** With two URLs, when the second one's fetch fails first, the counter as
      written already equals the total although the first is still running:
      the completion check then saves the report without its row. */
  lemma AsWrittenCountsUnfinished()
    ensures CounterAsWritten([Finish(1, true)]) == 2
    ensures |[Finish(1, true)]| < 2
  {
  }

  /** The intended counter is the number of finished callbacks, so it
      reaches the total only when every item has finished. */
  lemma {:induction false} CounterCountsFinishes(finishes: seq<Finish>)
    ensures Counter(finishes) == |finishes|
  {
    if finishes != [] {
      CounterCountsFinishes(finishes[..|finishes| - 1]);
    }
  }

  /** ... and it can also fall behind: when the first item's fetch fails
      after the other two have finished, the counter as written stays at 2
      of 3, so the completion check waits for its 100 polls. */
  lemma AsWrittenUndercounts()
    ensures CounterAsWritten([Finish(1, false), Finish(2, false), Finish(0, true)]) == 2
  {
    assert [Finish(1, false), Finish(2, false), Finish(0, true)][..2] == [Finish(1, false), Finish(2, false)];
    assert [Finish(1, false), Finish(2, false)][..1] == [Finish(1, false)];
  }

  // ---------------------------------------------------------------------
  // Completion
  // ---------------------------------------------------------------------

  /** The answers of the completion condition: poll `k` (the `waitCount`
      becomes k + 1) sees the counter `importedAt[k]`. */
  function CompletionPolls(importedAt: seq<nat>, total: nat): (polls: seq<bool>)
    ensures |polls| == |importedAt|
    ensures forall k :: 0 <= k < |polls| ==> (polls[k] <==> importedAt[k] == total || k + 1 >= 100)
  {
    seq(|importedAt|, k requires 0 <= k < |importedAt| => importedAt[k] == total || k + 1 >= 100)
  }

  /** The report is saved exactly once, after at most 100 polls, and before
      the 100th only at a poll that saw every URL counted. */
  lemma ReportSavedWithinHundredPolls(importedAt: seq<nat>, total: nat)
    requires |importedAt| >= 100
    ensures var polls := CompletionPolls(importedAt, total);
      var trace := ConcurrencyUtil.WaitFor(3000, polls);
      && ConcurrencyUtil.Callback in trace
      && ConcurrencyUtil.FirstTrue(polls) < 100
      && (ConcurrencyUtil.FirstTrue(polls) < 99 ==> importedAt[ConcurrencyUtil.FirstTrue(polls)] == total)
  {
    var polls := CompletionPolls(importedAt, total);
    assert polls[99];
  }
}

/** The `urls` command: walk a sitemap (and the child sitemaps it lists),
    keep the page entries whose `lastmod` is later than an optional date,
    rewrite each page URL onto the sitemap's own host, and write the result
    to the console, to a text file (one URL per line) or to a JSON array. */
module Urls {
  import opened Strings
  import opened Options
  import Elapsed

  // ---------------------------------------------------------------------
  // Mapped paths
  // ---------------------------------------------------------------------

  /** The parts of a parsed WHATWG URL that the command reads. `protocol`
      keeps its trailing colon (`"https:"`); `host` may carry a port. */
  datatype Url = Url(protocol: string, host: string, hostname: string,
                     pathname: string, search: string, hash: string)

  /** A protocol as the URL parser produces it: a scheme followed by one
      colon, and no other colon. */
  ghost predicate WellFormedProtocol(p: string) {
    |p| >= 1 && p[|p| - 1] == ':' && ':' !in p[..|p| - 1]
  }

  /** The first colon of a URL string ends its protocol. */
  lemma {:induction false} ColonEndsProtocol(protocol: string, rest: string)
    requires WellFormedProtocol(protocol)
    ensures (protocol + rest)[|protocol| - 1] == ':'
    ensures forall i :: 0 <= i < |protocol| - 1 ==> (protocol + rest)[i] != ':'
  {
    forall i | 0 <= i < |protocol| - 1
      ensures (protocol + rest)[i] != ':'
    {
      assert (protocol + rest)[i] == protocol[..|protocol| - 1][i];
    }
  }

  /** The path a page is listed under: the page URL's protocol and path on
      the sitemap's host name (port, query and fragment are dropped). */
  function MappedPath(u: Url, hostname: string): (p: string)
    ensures StartsWith(p, u.protocol + "//" + hostname)
    ensures EndsWith(p, u.pathname)
    ensures |p| == |u.protocol| + 2 + |hostname| + |u.pathname|
  {
    u.protocol + "//" + hostname + u.pathname
  }

  /** Two page URLs map to the same path exactly when they agree on protocol
      and path: whatever their host, port, query and fragment. */
  lemma {:induction false} MappedPathSameExactly(u: Url, v: Url, hostname: string)
    requires WellFormedProtocol(u.protocol) && WellFormedProtocol(v.protocol)
    ensures MappedPath(u, hostname) == MappedPath(v, hostname)
            <==> u.protocol == v.protocol && u.pathname == v.pathname
  {
    var p, q := MappedPath(u, hostname), MappedPath(v, hostname);
    ColonEndsProtocol(u.protocol, "//" + hostname + u.pathname);
    ColonEndsProtocol(v.protocol, "//" + hostname + v.pathname);
    if p == q {
      var m, n := |u.protocol|, |v.protocol|;
      assert p[m - 1] == ':' && q[n - 1] == ':';
      assert m == n;
      assert u.protocol == p[..m] == q[..n] == v.protocol;
      assert u.pathname == p[m + 2 + |hostname|..] == q[n + 2 + |hostname|..] == v.pathname;
    }
  }

  // ---------------------------------------------------------------------
  // Sitemaps and the date filter
  // ---------------------------------------------------------------------

  /** A JavaScript time value: milliseconds, or `NaN` for a date string that
      does not parse. */
  datatype Time = NaN | Ms(ms: int)

  /** `a.getTime() > b.getTime()`: never true when either side is `NaN`. */
  predicate Later(a: Time, b: Time) {
    a.Ms? && b.Ms? && a.ms > b.ms
  }

  /** A `<url>` element. `loc` is `None` when the element has no `<loc>` or
      its text is not a URL, `lastmod` is `None` when it has no `<lastmod>`;
      either makes the per-entry callback throw, so the entry is dropped. */
  datatype Entry = Entry(loc: Option<Url>, lastmod: Option<Time>)

  /** What fetching one sitemap URL yields: a response that is not ok
      (nothing, and the walk goes on), a failure that throws (a network or
      decompression error, or a `<sitemap>` without `<loc>`; the walk stops),
      or a document with its child sitemaps and its page entries in
      document order. */
  datatype Sitemap =
    | Unavailable
    | Broken
    | Document(children: seq<Sitemap>, entries: seq<Entry>)

  /** The entries reported, in order, and whether the walk was cut short by
      an exception. */
  datatype Walked = Walked(found: seq<Entry>, aborted: bool)

  /** An entry the callback reports: it has a location and a `lastmod`, and
      with a date filter the `lastmod` is strictly later. */
  predicate Passes(e: Entry, filter: Option<Time>) {
    e.loc.Some? && e.lastmod.Some? && (filter.None? || Later(e.lastmod.value, filter.value))
  }

  /** The own entries of one document that pass, in document order. */
  function PassingEntries(es: seq<Entry>, filter: Option<Time>): (r: seq<Entry>)
    ensures forall i :: 0 <= i < |r| ==> Passes(r[i], filter)
    ensures forall e :: e in es && Passes(e, filter) ==> e in r
    ensures forall e :: e in r ==> e in es
    ensures filter == Some(NaN) ==> r == []
  {
    if es == [] then []
    else (if Passes(es[0], filter) then [es[0]] else []) + PassingEntries(es[1..], filter)
  }

  /** `fetchSitemap` over a list of sitemaps walked one after the other:
      each document's child sitemaps first, in order, then its own entries;
      an exception ends the walk with what was reported so far. */
  function WalkAll(ss: seq<Sitemap>, filter: Option<Time>): (w: Walked)
    ensures forall i :: 0 <= i < |w.found| ==> Passes(w.found[i], filter)
    ensures filter == Some(NaN) ==> w.found == []
    decreases ss
  {
    if ss == [] then Walked([], false)
    else
      var head :=
        match ss[0]
        case Unavailable => Walked([], false)
        case Broken => Walked([], true)
        case Document(children, entries) =>
          var inner := WalkAll(children, filter);
          if inner.aborted then inner
          else Walked(inner.found + PassingEntries(entries, filter), false);
      if head.aborted then head
      else
        var rest := WalkAll(ss[1..], filter);
        Walked(head.found + rest.found, rest.aborted)
  }

  /** The walk from the sitemap the command is given. */
  function Walk(root: Sitemap, filter: Option<Time>): Walked {
    WalkAll([root], filter)
  }

  /** The entries of `es` whose `lastmod` is later than `t`. */
  function LaterThan(es: seq<Entry>, t: Time): (r: seq<Entry>)
    ensures |r| <= |es|
  {
    if es == [] then []
    else
      (if es[0].lastmod.Some? && Later(es[0].lastmod.value, t) then [es[0]] else [])
      + LaterThan(es[1..], t)
  }

  lemma {:induction false} LaterThanAppend(a: seq<Entry>, b: seq<Entry>, t: Time)
    ensures LaterThan(a + b, t) == LaterThan(a, t) + LaterThan(b, t)
    decreases |a|
  {
    if a != [] {
      assert (a + b)[0] == a[0];
      assert (a + b)[1..] == a[1..] + b;
      LaterThanAppend(a[1..], b, t);
      var x := if a[0].lastmod.Some? && Later(a[0].lastmod.value, t) then [a[0]] else [];
      assert LaterThan(a + b, t) == x + LaterThan(a[1..] + b, t);
      assert LaterThan(a, t) == x + LaterThan(a[1..], t);
      assert x + (LaterThan(a[1..], t) + LaterThan(b, t)) == (x + LaterThan(a[1..], t)) + LaterThan(b, t);
    } else {
      assert a + b == b;
    }
  }

  lemma {:induction false} PassingEntriesFiltered(es: seq<Entry>, t: Time)
    ensures PassingEntries(es, Some(t)) == LaterThan(PassingEntries(es, None), t)
    decreases |es|
  {
    if es != [] {
      PassingEntriesFiltered(es[1..], t);
      var first := if Passes(es[0], None) then [es[0]] else [];
      LaterThanAppend(first, PassingEntries(es[1..], None), t);
      assert [es[0]][1..] == [];
      assert LaterThan(first, t) == (if Passes(es[0], Some(t)) then [es[0]] else []);
    }
  }

  /** Walking with a date filter reports exactly the entries of the walk
      without one whose `lastmod` is later, in the same order, and stops at
      the same point. */
  lemma {:induction false} WalkAllFiltered(ss: seq<Sitemap>, t: Time)
    ensures WalkAll(ss, Some(t)).found == LaterThan(WalkAll(ss, None).found, t)
    ensures WalkAll(ss, Some(t)).aborted == WalkAll(ss, None).aborted
    decreases ss
  {
    if ss != [] {
      WalkAllFiltered(ss[1..], t);
      var restN := WalkAll(ss[1..], None);
      if ss[0].Document? {
        WalkAllFiltered(ss[0].children, t);
      }
      StepFiltered(ss, t);
    }
  }

  /** The step of `WalkAllFiltered`, given the property for the children of
      the first sitemap and for the rest of the list. */
  lemma {:induction false} StepFiltered(ss: seq<Sitemap>, t: Time)
    requires ss != []
    requires ss[0].Document? ==>
               WalkAll(ss[0].children, Some(t)).found == LaterThan(WalkAll(ss[0].children, None).found, t)
    requires ss[0].Document? ==>
               WalkAll(ss[0].children, Some(t)).aborted == WalkAll(ss[0].children, None).aborted
    requires WalkAll(ss[1..], Some(t)).found == LaterThan(WalkAll(ss[1..], None).found, t)
    requires WalkAll(ss[1..], Some(t)).aborted == WalkAll(ss[1..], None).aborted
    ensures WalkAll(ss, Some(t)).found == LaterThan(WalkAll(ss, None).found, t)
    ensures WalkAll(ss, Some(t)).aborted == WalkAll(ss, None).aborted
  {
    var restN := WalkAll(ss[1..], None);
    if ss[0].Unavailable? {
      assert WalkAll(ss, None).found == [] + restN.found;
      assert [] + restN.found == restN.found;
      return;
    } else if ss[0].Broken? {
      return;
    }
    var children, entries := ss[0].children, ss[0].entries;
    var innerN := WalkAll(children, None);
    if !innerN.aborted {
      PassingEntriesFiltered(entries, t);
      LaterThanAppend(innerN.found, PassingEntries(entries, None), t);
      var headN := innerN.found + PassingEntries(entries, None);
      LaterThanAppend(headN, restN.found, t);
      assert WalkAll(ss, None) == Walked(headN + restN.found, restN.aborted);
      var headS := WalkAll(children, Some(t)).found + PassingEntries(entries, Some(t));
      assert headS == LaterThan(headN, t);
      assert WalkAll(ss, Some(t)) == Walked(headS + WalkAll(ss[1..], Some(t)).found, restN.aborted);
    } else {
      assert WalkAll(ss, None) == innerN;
    }
  }

  /** A sitemap whose response is not ok reports nothing and is no error. */
  lemma {:induction false} UnavailableReportsNothing(filter: Option<Time>)
    ensures Walk(Unavailable, filter) == Walked([], false)
  {
    assert [Unavailable][1..] == [];
  }

  /** The entries of a document come after everything its child sitemaps
      report. */
  lemma {:induction false} ChildrenFirst(children: seq<Sitemap>, entries: seq<Entry>, filter: Option<Time>)
    requires !WalkAll(children, filter).aborted
    ensures Walk(Document(children, entries), filter).found
            == WalkAll(children, filter).found + PassingEntries(entries, filter)
    ensures !Walk(Document(children, entries), filter).aborted
  {
    var inner := WalkAll(children, filter);
    assert [Document(children, entries)][1..] == [];
    assert WalkAll([Document(children, entries)][1..], filter) == Walked([], false);
    assert inner.found + PassingEntries(entries, filter) + [] == inner.found + PassingEntries(entries, filter);
  }

  // ---------------------------------------------------------------------
  // Output
  // ---------------------------------------------------------------------

  /** What the mapping step gives back for a page: the mapped path, or what
      a mapping script returned; `None` and `Some("")` are falsy. */
  predicate Truthy(m: Option<string>) {
    m.Some? && m.value != ""
  }

  /** The mapped paths that are written, in order. */
  function Written(ms: seq<Option<string>>): (ws: seq<string>)
    ensures |ws| <= |ms|
  {
    if ms == [] then []
    else Written(ms[..|ms| - 1]) + (if Truthy(ms[|ms| - 1]) then [ms[|ms| - 1].value] else [])
  }

  /** `--out` absent: print; ending in `.json`: a JSON array; else lines. */
  datatype Mode = ToConsole | ToText | ToJson

  function ModeOf(out: Option<string>): (m: Mode)
    ensures m == ToJson <==> out.Some? && out.value != "" && EndsWith(out.value, ".json")
    ensures m == ToConsole <==> out.None? || out.value == ""
  {
    if out.None? || out.value == "" then ToConsole
    else if EndsWith(out.value, ".json") then ToJson
    else ToText
  }

  lemma {:induction false} WrittenSnoc(ms: seq<Option<string>>, m: Option<string>)
    ensures Written(ms + [m]) == Written(ms) + (if Truthy(m) then [m.value] else [])
  {
    assert (ms + [m])[..|ms|] == ms;
  }

  /** What the callback for one more mapped path adds to the file. */
  lemma {:induction false} EmitStep(mode: Mode, count: nat, pre: seq<Option<string>>, m: Option<string>,
                                    truthyJson: iset<string>)
    ensures FileText(mode, count, Written(pre + [m]), truthyJson)
            == FileText(mode, count, Written(pre), truthyJson)
               + (if Truthy(m) then Piece(mode, count + |Written(pre)|, m.value, truthyJson) else "")
  {
    WrittenSnoc(pre, m);
    if Truthy(m) {
      FileTextSnoc(mode, count, Written(pre), m.value, truthyJson);
    } else {
      var w := Written(pre);
      assert w + [] == w;
      var text := FileText(mode, count, w, truthyJson);
      assert text + "" == text;
    }
  }

  /** One JSON array element: the path itself when it parses as a truthy
      JSON value, otherwise the path in double quotes (no escaping). */
  function JsonItem(path: string, truthyJson: iset<string>): string {
    if path in truthyJson then path else "\"" + path + "\""
  }

  /** What one written path appends to the file, when `count` paths were
      written before it. */
  function Piece(mode: Mode, count: nat, path: string, truthyJson: iset<string>): string {
    match mode
    case ToConsole => ""
    case ToText => path + "\n"
    case ToJson => (if count > 0 then ",\n" else "") + JsonItem(path, truthyJson)
  }

  /** What a sequence of written paths appends to the file, after `count`
      earlier ones. */
  function FileText(mode: Mode, count: nat, ws: seq<string>, truthyJson: iset<string>): string {
    if ws == [] then ""
    else FileText(mode, count, ws[..|ws| - 1], truthyJson)
         + Piece(mode, count + |ws| - 1, ws[|ws| - 1], truthyJson)
  }

  lemma {:induction false} FileTextSnoc(mode: Mode, count: nat, ws: seq<string>, w: string, truthyJson: iset<string>)
    ensures FileText(mode, count, ws + [w], truthyJson)
            == FileText(mode, count, ws, truthyJson) + Piece(mode, count + |ws|, w, truthyJson)
  {
    assert (ws + [w])[..|ws|] == ws;
  }

  /** The array elements of the written paths, in order. */
  function JsonItems(ws: seq<string>, truthyJson: iset<string>): (r: seq<string>)
    ensures |r| == |ws|
  {
    if ws == [] then []
    else JsonItems(ws[..|ws| - 1], truthyJson) + [JsonItem(ws[|ws| - 1], truthyJson)]
  }

  /** The JSON pieces written from a zero count are the items joined by
      commas. */
  lemma {:induction false} JsonTextJoins(ws: seq<string>, truthyJson: iset<string>)
    ensures FileText(ToJson, 0, ws, truthyJson) == Join(JsonItems(ws, truthyJson), ",\n")
    decreases |ws|
  {
    if |ws| == 1 {
      assert ws[..0] == [];
    } else if |ws| > 1 {
      var init := ws[..|ws| - 1];
      JsonTextJoins(init, truthyJson);
      JoinSnoc(JsonItems(init, truthyJson), JsonItem(ws[|ws| - 1], truthyJson), ",\n");
    }
  }

  /** The text file holds each written path followed by a newline. */
  lemma {:induction false} TextJoins(count: nat, ws: seq<string>, truthyJson: iset<string>)
    requires |ws| >= 1
    ensures FileText(ToText, count, ws, truthyJson) == Join(ws, "\n") + "\n"
    decreases |ws|
  {
    if |ws| == 1 {
      assert ws[..0] == [];
    } else {
      var init := ws[..|ws| - 1];
      TextJoins(count, init, truthyJson);
      assert ws == init + [ws[|ws| - 1]];
      JoinSnoc(init, ws[|ws| - 1], "\n");
    }
  }

  /** Reading the text file back line by line gives the written paths, when
      none of them holds a newline. */
  lemma {:induction false} TextFileRoundTrip(ws: seq<string>, truthyJson: iset<string>)
    requires |ws| >= 1
    requires forall i :: 0 <= i < |ws| ==> '\n' !in ws[i]
    ensures var text := FileText(ToText, 0, ws, truthyJson);
            |text| >= 1 && Split(text[..|text| - 1], '\n') == ws
  {
    TextJoins(0, ws, truthyJson);
    var text := FileText(ToText, 0, ws, truthyJson);
    assert text[..|text| - 1] == Join(ws, "\n");
    SplitJoin(ws, '\n');
  }

  /** The output of one run: the file written (or nothing), the lines
      printed, and the module-level `totalCounter`. */
  class UrlWriter {
    const mode: Mode
    var file: string
    var printed: seq<string>
    var totalCounter: nat

    /** Opening the output: an existing file is replaced; a JSON file starts
        with `[` and a newline. */
    constructor (out: Option<string>)
      ensures mode == ModeOf(out)
      ensures file == (if mode == ToJson then "[\n" else "")
      ensures printed == [] && totalCounter == 0
    {
      mode := ModeOf(out);
      file := if ModeOf(out) == ToJson then "[\n" else "";
      printed := [];
      totalCounter := 0;
    }

    /** The per-page callback after mapping: a falsy path is skipped; a
        truthy one is written (with a comma before every JSON item but the
        first) and counted. */
    method Emit(m: Option<string>, truthyJson: iset<string>)
      modifies this`file, this`printed, this`totalCounter
      ensures totalCounter == old(totalCounter) + (if Truthy(m) then 1 else 0)
      ensures file == old(file) + (if Truthy(m) then Piece(mode, old(totalCounter), m.value, truthyJson) else "")
      ensures printed == old(printed) + (if Truthy(m) && mode == ToConsole then [m.value] else [])
    {
      if Truthy(m) {
        if mode == ToConsole {
          printed := printed + [m.value];
        } else {
          file := file + Piece(mode, totalCounter, m.value, truthyJson);
        }
        totalCounter := totalCounter + 1;
      }
    }

    /** The callbacks for a list of pages, one after the other. */
    method EmitAll(ms: seq<Option<string>>, truthyJson: iset<string>)
      modifies this`file, this`printed, this`totalCounter
      ensures totalCounter == old(totalCounter) + |Written(ms)|
      ensures file == old(file) + FileText(mode, old(totalCounter), Written(ms), truthyJson)
      ensures printed == old(printed) + (if mode == ToConsole then Written(ms) else [])
    {
      assert ms[..0] == [];
      for i := 0 to |ms|
        invariant Emitted(ms, i, old(file), old(printed), old(totalCounter), truthyJson)
      {
        EmitNext(ms, i, truthyJson, old(file), old(printed), old(totalCounter));
      }
      assert ms[..|ms|] == ms;
    }

    /** The output after the callbacks for the first `i` mapped paths, from
        `file0`, `printed0` and `count0`. */
    ghost predicate Emitted(ms: seq<Option<string>>, i: nat, file0: string, printed0: seq<string>, count0: nat,
                            truthyJson: iset<string>)
      reads this
    {
      i <= |ms|
      && totalCounter == count0 + |Written(ms[..i])|
      && file == file0 + FileText(mode, count0, Written(ms[..i]), truthyJson)
      && printed == printed0 + (if mode == ToConsole then Written(ms[..i]) else [])
    }

    /** The callback for the mapped path at `i`. */
    method EmitNext(ms: seq<Option<string>>, i: nat, truthyJson: iset<string>,
                    ghost file0: string, ghost printed0: seq<string>, ghost count0: nat)
      requires i < |ms| && Emitted(ms, i, file0, printed0, count0, truthyJson)
      modifies this`file, this`printed, this`totalCounter
      ensures Emitted(ms, i + 1, file0, printed0, count0, truthyJson)
    {
      assert ms[..i + 1] == ms[..i] + [ms[i]];
      WrittenSnoc(ms[..i], ms[i]);
      EmitStep(mode, count0, ms[..i], ms[i], truthyJson);
      ghost var text := FileText(mode, count0, Written(ms[..i]), truthyJson);
      Emit(ms[i], truthyJson);
      AppendAssoc(file0, text, if Truthy(ms[i]) then Piece(mode, count0 + |Written(ms[..i])|, ms[i].value, truthyJson) else "");
      AppendAssoc(printed0, Written(ms[..i]), if Truthy(ms[i]) then [ms[i].value] else []);
    }

    /** The end of a walk that was not cut short: a JSON array is closed and
        the count and time are printed. */
    method Finish(elapsedMs: nat)
      modifies this`file, this`printed
      ensures file == old(file) + (if mode == ToJson then "]" else "")
      ensures printed == old(printed)
                         + ["Extracted " + NatToString(totalCounter) + " in " + Elapsed.TimerText(elapsedMs)]
    {
      if mode == ToJson {
        file := file + "]";
      }
      printed := printed + ["Extracted " + NatToString(totalCounter) + " in " + Elapsed.TimerText(elapsedMs)];
    }

    /** A whole run on a freshly opened output: every mapped path is passed
        to the callback in order, and the output is closed unless the walk
        threw. */
    method WriteAll(ms: seq<Option<string>>, aborted: bool, truthyJson: iset<string>, elapsedMs: nat)
      requires file == (if mode == ToJson then "[\n" else "") && printed == [] && totalCounter == 0
      modifies this`file, this`printed, this`totalCounter
      ensures totalCounter == |Written(ms)|
      ensures file == FileOf(mode, Written(ms), aborted, truthyJson)
      ensures printed == (if mode == ToConsole then Written(ms) else [])
                         + (if aborted then []
                            else ["Extracted " + NatToString(totalCounter) + " in " + Elapsed.TimerText(elapsedMs)])
    {
      ghost var opening := file;
      EmitAll(ms, truthyJson);
      ghost var written := printed;
      if !aborted {
        Finish(elapsedMs);
      } else {
        assert file == file + "";
        assert printed == written + [];
      }
    }
  }

  /** The mapping step for every reported entry: the mapped path, passed
      through the mapping script when there is one. */
  function MapAll(found: seq<Entry>, hostname: string, script: Option<string -> Option<string>>): (ms: seq<Option<string>>)
    requires forall i :: 0 <= i < |found| ==> found[i].loc.Some?
    ensures |ms| == |found|
  {
    seq(|found|, i requires 0 <= i < |found| =>
      var p := MappedPath(found[i].loc.value, hostname);
      if script.None? then Some(p) else script.value(p))
  }

  /** Without a mapping script every reported page is written, in order. */
  lemma {:induction false} WithoutScriptAllWritten(found: seq<Entry>, hostname: string)
    requires forall i :: 0 <= i < |found| ==> found[i].loc.Some?
    ensures var ws := Written(MapAll(found, hostname, None));
            |ws| == |found|
            && forall i :: 0 <= i < |found| ==> ws[i] == MappedPath(found[i].loc.value, hostname)
    decreases |found|
  {
    if found != [] {
      var init := found[..|found| - 1];
      WithoutScriptAllWritten(init, hostname);
      var ms := MapAll(found, hostname, None);
      assert ms[..|ms| - 1] == MapAll(init, hostname, None);
      assert |MappedPath(found[|found| - 1].loc.value, hostname)| >= 2;
    }
  }

  /** The paths one run writes, in order. */
  function WrittenPaths(root: Sitemap, filter: Option<Time>, hostname: string,
                        script: Option<string -> Option<string>>): seq<string>
  {
    Written(MapAll(Walk(root, filter).found, hostname, script))
  }

  /** The whole file one run leaves: the opening bracket of a JSON array,
      the written paths, and the closing bracket unless the walk threw. */
  function FileOf(mode: Mode, ws: seq<string>, aborted: bool, truthyJson: iset<string>): string {
    (if mode == ToJson then "[\n" else "")
    + FileText(mode, 0, ws, truthyJson)
    + (if mode == ToJson && !aborted then "]" else "")
  }

  /** A completed JSON run leaves an array of the written paths, and one
      cut short leaves the array without its closing bracket. */
  lemma {:induction false} JsonFileIsArray(ws: seq<string>, aborted: bool, truthyJson: iset<string>)
    ensures FileOf(ToJson, ws, aborted, truthyJson)
            == "[\n" + Join(JsonItems(ws, truthyJson), ",\n") + (if aborted then "" else "]")
  {
    JsonTextJoins(ws, truthyJson);
  }

  /** A text run leaves one line per written path. */
  lemma {:induction false} TextFileIsLines(ws: seq<string>, aborted: bool, truthyJson: iset<string>)
    requires ws != []
    ensures FileOf(ToText, ws, aborted, truthyJson) == Join(ws, "\n") + "\n"
  {
    TextJoins(0, ws, truthyJson);
    var text := FileText(ToText, 0, ws, truthyJson);
    assert FileOf(ToText, ws, aborted, truthyJson) == "" + text + "";
    assert "" + text + "" == text;
  }

  /** In console mode the file `FileOf` describes is empty, whatever was
      written and whether or not the walk aborted. */
  lemma {:induction false} ConsoleLeavesNoFile(ws: seq<string>, aborted: bool, truthyJson: iset<string>)
    ensures FileOf(ToConsole, ws, aborted, truthyJson) == ""
  {
    ConsoleWritesNoFile(0, ws, truthyJson);
  }

  /** In console mode no callback appends anything to a file. */
  lemma {:induction false} ConsoleWritesNoFile(count: nat, ws: seq<string>, truthyJson: iset<string>)
    ensures FileText(ToConsole, count, ws, truthyJson) == ""
    decreases |ws|
  {
    if ws != [] {
      ConsoleWritesNoFile(count, ws[..|ws| - 1], truthyJson);
    }
  }

  /** The command: open the output, walk the sitemap, write every reported
      page, and close the output unless the walk threw. */
  method Handler(out: Option<string>, root: Sitemap, filter: Option<Time>, hostname: string,
                 script: Option<string -> Option<string>>, truthyJson: iset<string>,
                 elapsedMs: nat)
    returns (w: UrlWriter)
    ensures w.mode == ModeOf(out)
    ensures w.totalCounter == |WrittenPaths(root, filter, hostname, script)|
    ensures w.file == FileOf(w.mode, WrittenPaths(root, filter, hostname, script), Walk(root, filter).aborted, truthyJson)
    ensures w.printed == (if w.mode == ToConsole then WrittenPaths(root, filter, hostname, script) else [])
                         + (if Walk(root, filter).aborted then []
                            else ["Extracted " + NatToString(w.totalCounter) + " in " + Elapsed.TimerText(elapsedMs)])
  {
    w := new UrlWriter(out);
    var walked := Walk(root, filter);
    var ms := MapAll(walked.found, hostname, script);
    w.WriteAll(ms, walked.aborted, truthyJson, elapsedMs);
  }
}

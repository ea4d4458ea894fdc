/** The Google Drive client's folder scan: a depth-first walk over a folder
    tree that reports every non-folder entry to a callback together with its
    slash-joined path, descending into subfolders only on a deep scan, and
    refusing to start before the client was initialised. */
module DriveApi {
  import opened Strings

  /** The MIME type Drive gives to folders. */
  const FolderMime := "application/vnd.google-apps.folder"

  /** An entry of a folder listing. For a folder, `listable` says whether
      listing its contents succeeds and `children` is what that listing
      returns, in listing order: the first result page of a single
      `files.list` call, since the scan never asks for a further page; both
      are ignored for other entries. */
  datatype Node = Node(id: string, name: string, mimeType: string, listable: bool, children: seq<Node>)

  predicate IsFolder(n: Node) {
    n.mimeType == FolderMime
  }

  /** One callback invocation: the file object and its accumulated path. */
  datatype Report = Report(id: string, name: string, mimeType: string, path: string)

  /** One "unable to list files in folder" line: the folder id and path. */
  datatype LogEntry = LogEntry(folderId: string, path: string)

  /** What a scan produced, and whether an exception left the folder's loop
      early (a callback that threw). */
  datatype Scanned = Scanned(reports: seq<Report>, logs: seq<LogEntry>, stopped: bool)

  /** The path of an entry named `name` inside a folder at `path`. */
  function ChildPath(path: string, name: string): (p: string)
    ensures path == "" ==> p == name
    ensures path != "" ==> StartsWith(p, path + "/") && |p| == |path| + 1 + |name|
    ensures EndsWith(p, name)
  {
    if |path| > 0 then path + "/" + name else name
  }

  /** A report a scan of the folder at `path` may make: a non-folder entry,
      whose path ends with its name and lies below `path`. */
  predicate ReportedBelow(rep: Report, path: string) {
    rep.mimeType != FolderMime
    && EndsWith(rep.path, rep.name)
    && (path != "" ==> StartsWith(rep.path, path + "/"))
  }

  /** `scanFiles(folderId, callback, deep, path)` once the client is
      initialised: a listing that fails, an empty root folder (whose log line
      names a variable that is out of scope, so it throws) and a callback
      that throws are each caught and logged once for this folder; nothing
      escapes to the caller. */
  function Scan(folderId: string, listable: bool, children: seq<Node>, path: string,
                deep: bool, rejecting: set<string>): (r: Scanned)
    ensures !r.stopped
    ensures !listable ==> r == Scanned([], [LogEntry(folderId, path)], false)
    ensures listable && children == [] ==>
              r == Scanned([], if path == "" then [LogEntry(folderId, path)] else [], false)
    ensures forall rep :: rep in r.reports ==> ReportedBelow(rep, path)
    decreases children, 1
  {
    if !listable then Scanned([], [LogEntry(folderId, path)], false)
    else if |children| > 0 then
      var inner := ScanEntries(children, folderId, path, deep, rejecting);
      Scanned(inner.reports, inner.logs + (if inner.stopped then [LogEntry(folderId, path)] else []), false)
    else if |path| == 0 then Scanned([], [LogEntry(folderId, path)], false)
    else Scanned([], [], false)
  }

  /** The loop over one folder's listing, from its first entry: a folder is
      scanned (deep only) at its place among its siblings, any other entry
      is reported; a callback that throws ends the loop. */
  function ScanEntries(nodes: seq<Node>, folderId: string, path: string,
                       deep: bool, rejecting: set<string>): (r: Scanned)
    ensures forall rep :: rep in r.reports ==> ReportedBelow(rep, path)
    decreases nodes, 0
  {
    if nodes == [] then Scanned([], [], false)
    else
      var n := nodes[0];
      var currentPath := ChildPath(path, n.name);
      if IsFolder(n) then
        var sub := if deep then Scan(n.id, n.listable, n.children, currentPath, deep, rejecting)
                   else Scanned([], [], false);
        var rest := ScanEntries(nodes[1..], folderId, path, deep, rejecting);
        BelowChildIsBelow(sub.reports, path, n.name);
        Scanned(sub.reports + rest.reports, sub.logs + rest.logs, rest.stopped)
      else
        var report := Report(n.id, n.name, n.mimeType, currentPath);
        if n.id in rejecting then Scanned([report], [], true)
        else
          var rest := ScanEntries(nodes[1..], folderId, path, deep, rejecting);
          Scanned([report] + rest.reports, rest.logs, rest.stopped)
  }

  /** A path below a child folder is below its parent too. */
  lemma {:induction false} PrefixOfChild(path: string, name: string, p: string)
    requires path != ""
    requires StartsWith(p, ChildPath(path, name) + "/")
    ensures StartsWith(p, path + "/")
  {
    var c := ChildPath(path, name);
    assert c[..|path| + 1] == path + "/";
    assert p[..|c| + 1][..|path| + 1] == p[..|path| + 1];
  }

  /** Reports below a child folder are below its parent too. */
  lemma BelowChildIsBelow(reps: seq<Report>, path: string, name: string)
    requires forall rep :: rep in reps ==> ReportedBelow(rep, ChildPath(path, name))
    ensures forall rep :: rep in reps ==> ReportedBelow(rep, path)
  {
    forall rep | rep in reps
      ensures ReportedBelow(rep, path)
    {
      if path != "" {
        PrefixOfChild(path, name, rep.path);
      }
    }
  }

  /** `ScanEntries` from a folder entry at position `i`, unfolded once. */
  lemma {:induction false} FolderUnfold(nodes: seq<Node>, i: nat, folderId: string, path: string,
                     deep: bool, rejecting: set<string>)
    requires i < |nodes| && IsFolder(nodes[i])
    ensures var n := nodes[i];
            var rest := ScanEntries(nodes[i + 1..], folderId, path, deep, rejecting);
            var sub := if deep then Scan(n.id, n.listable, n.children, ChildPath(path, n.name), deep, rejecting)
                       else Scanned([], [], false);
            ScanEntries(nodes[i..], folderId, path, deep, rejecting)
              == Scanned(sub.reports + rest.reports, sub.logs + rest.logs, rest.stopped)
  {
    assert nodes[i..][0] == nodes[i];
    assert nodes[i..][1..] == nodes[i + 1..];
  }

  /** `ScanEntries` from a file entry at position `i`, unfolded once. */
  lemma {:induction false} FileUnfold(nodes: seq<Node>, i: nat, folderId: string, path: string,
                   deep: bool, rejecting: set<string>)
    requires i < |nodes| && !IsFolder(nodes[i])
    ensures var n := nodes[i];
            var rest := ScanEntries(nodes[i + 1..], folderId, path, deep, rejecting);
            var report := Report(n.id, n.name, n.mimeType, ChildPath(path, n.name));
            ScanEntries(nodes[i..], folderId, path, deep, rejecting)
              == if n.id in rejecting then Scanned([report], [], true)
                 else Scanned([report] + rest.reports, rest.logs, rest.stopped)
  {
    assert nodes[i..][0] == nodes[i];
    assert nodes[i..][1..] == nodes[i + 1..];
  }

  /** How one turn of the loop over a listing moves the observed reports and
      logs from `r0`, `l0` to `r1`, `l1`, where `here` is the scan of the
      listing from this entry on and `rest` from the next entry on. */
  ghost predicate Advanced(r0: seq<Report>, l0: seq<LogEntry>, r1: seq<Report>, l1: seq<LogEntry>,
                           here: Scanned, rest: Scanned, stop: bool)
  {
    if stop then here.stopped && r1 == r0 + here.reports && l1 == l0 + here.logs
    else r0 + here.reports == r1 + rest.reports && l0 + here.logs == l1 + rest.logs
         && here.stopped == rest.stopped
  }

  /** What a subfolder entry contributes to its parent's scan. */
  ghost function SubfolderScan(n: Node, path: string, deep: bool, rejecting: set<string>): Scanned {
    if deep then Scan(n.id, n.listable, n.children, ChildPath(path, n.name), deep, rejecting)
    else Scanned([], [], false)
  }

  /** The files directly in a listing, reported with their paths. */
  function DirectFiles(nodes: seq<Node>, path: string): (r: seq<Report>)
    ensures |r| <= |nodes|
  {
    if nodes == [] then []
    else
      (if IsFolder(nodes[0]) then []
       else [Report(nodes[0].id, nodes[0].name, nodes[0].mimeType, ChildPath(path, nodes[0].name))])
      + DirectFiles(nodes[1..], path)
  }

  /** A shallow scan whose callbacks all succeed reports exactly the files
      directly in the folder, in listing order, and logs nothing. */
  lemma {:induction false} ShallowScanReportsDirectFiles(nodes: seq<Node>, folderId: string, path: string)
    ensures ScanEntries(nodes, folderId, path, false, {})
            == Scanned(DirectFiles(nodes, path), [], false)
    decreases nodes
  {
    if nodes != [] {
      ShallowScanReportsDirectFiles(nodes[1..], folderId, path);
    }
  }

  /** The files of a folder tree in depth-first pre-order, each with the
      path accumulated from `path` through the names of its folders: the
      reference the deep scan is checked against. */
  function Flatten(nodes: seq<Node>, path: string): seq<Report>
    decreases nodes
  {
    if nodes == [] then []
    else
      var n := nodes[0];
      (if IsFolder(n) then Flatten(n.children, ChildPath(path, n.name))
       else [Report(n.id, n.name, n.mimeType, ChildPath(path, n.name))])
      + Flatten(nodes[1..], path)
  }

  /** Every folder of the tree can be listed. */
  predicate Listable(nodes: seq<Node>)
    decreases nodes
  {
    nodes == [] ||
    ((IsFolder(nodes[0]) ==> nodes[0].listable && Listable(nodes[0].children)) && Listable(nodes[1..]))
  }

  /** A deep scan of a tree whose folders can all be listed and whose
      callbacks all succeed reports exactly the tree's files in depth-first
      pre-order with their accumulated paths, and runs to the end. The tree
      is what the listings return, so a folder's files beyond its first
      result page are not part of it. */
  lemma {:induction false} DeepScanFlattens(nodes: seq<Node>, folderId: string, path: string, rejecting: set<string>)
    requires Listable(nodes)
    requires forall rep :: rep in Flatten(nodes, path) ==> rep.id !in rejecting
    ensures ScanEntries(nodes, folderId, path, true, rejecting).reports == Flatten(nodes, path)
    ensures !ScanEntries(nodes, folderId, path, true, rejecting).stopped
    ensures Scan(folderId, true, nodes, path, true, rejecting).reports == Flatten(nodes, path)
    decreases nodes
  {
    if nodes != [] {
      var n := nodes[0];
      var cp := ChildPath(path, n.name);
      var rest := Flatten(nodes[1..], path);
      DeepScanFlattens(nodes[1..], folderId, path, rejecting);
      if IsFolder(n) {
        var inner := Flatten(n.children, cp);
        assert Flatten(nodes, path) == inner + rest;
        DeepScanFlattens(n.children, n.id, cp, rejecting);
      } else {
        var report := Report(n.id, n.name, n.mimeType, cp);
        assert Flatten(nodes, path) == [report] + rest;
        assert report in Flatten(nodes, path);
      }
    }
  }

  /** A subfolder whose listing fails costs only its own log line: the other
      entries are reported exactly as if it were absent. */
  lemma {:induction false} UnlistableFolderIsolated(nodes: seq<Node>, i: nat, folderId: string, path: string,
                                                    deep: bool, rejecting: set<string>)
    requires i < |nodes| && IsFolder(nodes[i]) && !nodes[i].listable
    ensures var with := ScanEntries(nodes, folderId, path, deep, rejecting);
            var without := ScanEntries(nodes[..i] + nodes[i + 1..], folderId, path, deep, rejecting);
            with.reports == without.reports && with.stopped == without.stopped
    decreases i
  {
    if i == 0 {
      assert nodes[..0] + nodes[1..] == nodes[1..];
      UnlistableHeadIsolated(nodes, folderId, path, deep, rejecting);
    } else {
      RemoveBehindHead(nodes, i);
      UnlistableFolderIsolated(nodes[1..], i - 1, folderId, path, deep, rejecting);
      SameHeadScan(nodes, nodes[..i] + nodes[i + 1..], folderId, path, deep, rejecting);
    }
  }

  /** An unlistable folder at the head of a listing adds no report and does
      not stop the loop. */
  lemma {:induction false} UnlistableHeadIsolated(nodes: seq<Node>, folderId: string, path: string,
                                                  deep: bool, rejecting: set<string>)
    requires nodes != [] && IsFolder(nodes[0]) && !nodes[0].listable
    ensures ScanEntries(nodes, folderId, path, deep, rejecting).reports
            == ScanEntries(nodes[1..], folderId, path, deep, rejecting).reports
    ensures ScanEntries(nodes, folderId, path, deep, rejecting).stopped
            == ScanEntries(nodes[1..], folderId, path, deep, rejecting).stopped
  {
    var rest := ScanEntries(nodes[1..], folderId, path, deep, rejecting);
    StepUnfold(nodes, folderId, path, deep, rejecting);
    var sub := SubfolderScan(nodes[0], path, deep, rejecting);
    UnlistableSubfolderEmpty(nodes[0], path, deep, rejecting);
    assert Step(nodes[0], rest, path, deep, rejecting) == Scanned(sub.reports + rest.reports, sub.logs + rest.logs, rest.stopped);
    assert sub.reports + rest.reports == rest.reports;
  }

  /** A subfolder whose listing fails reports nothing. */
  lemma UnlistableSubfolderEmpty(n: Node, path: string, deep: bool, rejecting: set<string>)
    requires IsFolder(n) && !n.listable
    ensures SubfolderScan(n, path, deep, rejecting).reports == []
  {
  }

  /** One turn of the loop over a listing: what entry `n` contributes,
      followed by `rest`, the scan of the entries after it. */
  ghost function Step(n: Node, rest: Scanned, path: string, deep: bool, rejecting: set<string>): Scanned {
    if IsFolder(n) then
      var sub := SubfolderScan(n, path, deep, rejecting);
      Scanned(sub.reports + rest.reports, sub.logs + rest.logs, rest.stopped)
    else if n.id in rejecting then Scanned([Report(n.id, n.name, n.mimeType, ChildPath(path, n.name))], [], true)
    else Scanned([Report(n.id, n.name, n.mimeType, ChildPath(path, n.name))] + rest.reports, rest.logs, rest.stopped)
  }

  /** `ScanEntries` of a non-empty listing is one `Step` on the scan of its
      tail. */
  lemma {:induction false} StepUnfold(nodes: seq<Node>, folderId: string, path: string, deep: bool, rejecting: set<string>)
    requires nodes != []
    ensures ScanEntries(nodes, folderId, path, deep, rejecting)
            == Step(nodes[0], ScanEntries(nodes[1..], folderId, path, deep, rejecting), path, deep, rejecting)
  {
  }

  /** Removing an element behind the head keeps the head and removes it
      from the tail. */
  lemma RemoveBehindHead<T>(s: seq<T>, i: nat)
    requires 0 < i < |s|
    ensures s[1..][i - 1] == s[i]
    ensures (s[..i] + s[i + 1..])[0] == s[0]
    ensures (s[..i] + s[i + 1..])[1..] == s[1..][..i - 1] + s[1..][i..]
  {
  }

  /** Two listings with the same first entry whose remainders scan to the
      same reports and the same stop scan to the same reports and stop. */
  lemma {:induction false} SameHeadScan(a: seq<Node>, b: seq<Node>, folderId: string, path: string,
                                        deep: bool, rejecting: set<string>)
    requires a != [] && b != [] && a[0] == b[0]
    requires ScanEntries(a[1..], folderId, path, deep, rejecting).reports
             == ScanEntries(b[1..], folderId, path, deep, rejecting).reports
    requires ScanEntries(a[1..], folderId, path, deep, rejecting).stopped
             == ScanEntries(b[1..], folderId, path, deep, rejecting).stopped
    ensures ScanEntries(a, folderId, path, deep, rejecting).reports
            == ScanEntries(b, folderId, path, deep, rejecting).reports
    ensures ScanEntries(a, folderId, path, deep, rejecting).stopped
            == ScanEntries(b, folderId, path, deep, rejecting).stopped
  {
    StepUnfold(a, folderId, path, deep, rejecting);
    StepUnfold(b, folderId, path, deep, rejecting);
  }

  /** The client's module state (whether `init` has set the Drive handle)
      and what the scans it runs observe: the callback invocations and the
      error lines logged. The source keeps the handle in one module-level
      variable shared by every client; here each object has its own. */
  class DriveClient {
    var initialized: bool
    var reports: seq<Report>
    var logs: seq<LogEntry>

    constructor ()
      ensures !initialized && reports == [] && logs == []
    {
      initialized := false;
      reports := [];
      logs := [];
    }

    /** `init`: the Drive handle is set once credentials load and the
        authorisation completes; a failure leaves the state as it was. */
    method Init(authorised: bool)
      modifies this`initialized
      ensures initialized == (old(initialized) || authorised)
    {
      if authorised {
        initialized := true;
      }
    }

    /** `scanFiles`: throws before listing anything when the client is not
        initialised (`authCheck` sits outside the `try`); otherwise scans as
        `Scan` says and never throws. */
    method ScanFiles(folderId: string, listable: bool, children: seq<Node>, deep: bool,
                     path: string, rejecting: set<string>)
      returns (thrown: bool)
      modifies this`reports, this`logs
      ensures thrown == !initialized
      ensures !initialized ==> reports == old(reports) && logs == old(logs)
      ensures initialized ==>
                reports == old(reports) + Scan(folderId, listable, children, path, deep, rejecting).reports
      ensures initialized ==>
                logs == old(logs) + Scan(folderId, listable, children, path, deep, rejecting).logs
      decreases children, 2
    {
      if !initialized {
        return true;
      }
      thrown := false;
      if !listable {
        logs := logs + [LogEntry(folderId, path)];
        return;
      }
      if |children| > 0 {
        ghost var total := ScanEntries(children, folderId, path, deep, rejecting);
        var i := 0;
        var stopped := false;
        while i < |children| && !stopped
          invariant 0 <= i <= |children|
          invariant stopped ==> total.stopped && reports == old(reports) + total.reports
                                && logs == old(logs) + total.logs
          invariant !stopped ==>
                      old(reports) + total.reports
                        == reports + ScanEntries(children[i..], folderId, path, deep, rejecting).reports
          invariant !stopped ==>
                      old(logs) + total.logs
                        == logs + ScanEntries(children[i..], folderId, path, deep, rejecting).logs
          invariant !stopped ==> total.stopped == ScanEntries(children[i..], folderId, path, deep, rejecting).stopped
          decreases |children| - i
        {
          stopped := ScanEntryAt(children, i, folderId, path, deep, rejecting);
          i := i + 1;
        }
        if stopped {
          ghost var l0 := logs;
          logs := logs + [LogEntry(folderId, path)];
          assert logs == old(logs) + (total.logs + [LogEntry(folderId, path)]);
        } else {
          assert children[i..] == [];
          assert logs == old(logs) + total.logs;
        }
      } else if |path| == 0 {
        logs := logs + [LogEntry(folderId, path)];
      }
    }
  
    /** One turn of `scanFiles`' loop over a listing: the entry at `i` is
        scanned (a folder, on a deep scan) or reported; `stop` says that its
        callback threw. */
    method ScanEntryAt(children: seq<Node>, i: nat, folderId: string, path: string,
                       deep: bool, rejecting: set<string>)
      returns (stop: bool)
      requires initialized && i < |children|
      modifies this`reports, this`logs
      ensures Advanced(old(reports), old(logs), reports, logs,
                       ScanEntries(children[i..], folderId, path, deep, rejecting),
                       ScanEntries(children[i + 1..], folderId, path, deep, rejecting), stop)
      decreases children, 1
    {
      var n := children[i];
      ghost var rest := ScanEntries(children[i + 1..], folderId, path, deep, rejecting);
      ghost var r0, l0 := reports, logs;
      stop := false;
      if n.mimeType == FolderMime {
        FolderUnfold(children, i, folderId, path, deep, rejecting);
        ghost var sub := SubfolderScan(n, path, deep, rejecting);
        VisitFolder(children, i, path, deep, rejecting);
        AppendAssoc(r0, sub.reports, rest.reports);
        AppendAssoc(l0, sub.logs, rest.logs);
      } else {
        FileUnfold(children, i, folderId, path, deep, rejecting);
        stop := VisitFile(n, path, rejecting);
        AppendAssoc(r0, [Report(n.id, n.name, n.mimeType, ChildPath(path, n.name))], rest.reports);
      }
    }

    /** A file entry: the callback is invoked with the file and its path;
        `threw` says that it threw. */
    method VisitFile(n: Node, path: string, rejecting: set<string>) returns (threw: bool)
      modifies this`reports
      ensures reports == old(reports) + [Report(n.id, n.name, n.mimeType, ChildPath(path, n.name))]
      ensures threw == (n.id in rejecting)
    {
      var currentPath := ChildPath(path, n.name);
      reports := reports + [Report(n.id, n.name, n.mimeType, currentPath)];
      threw := n.id in rejecting;
    }

    /** A subfolder entry: scanned under its own path on a deep scan,
        skipped otherwise. */
    method VisitFolder(children: seq<Node>, i: nat, path: string, deep: bool, rejecting: set<string>)
      requires initialized && i < |children|
      modifies this`reports, this`logs
      ensures reports == old(reports) + SubfolderScan(children[i], path, deep, rejecting).reports
      ensures logs == old(logs) + SubfolderScan(children[i], path, deep, rejecting).logs
      decreases children, 0
    {
      var n := children[i];
      if deep {
        var subThrown := ScanFiles(n.id, n.listable, n.children, deep, ChildPath(path, n.name), rejecting);
      } else {
        assert reports == old(reports) + [] && logs == old(logs) + [];
      }
    }
  }
}

/** The upload command: mirrors a local folder tree into a Drive folder.

    The remote store is reduced to what the command uses of it: folders
    looked up by parent and name, folders created with a fresh id, and files
    created or copied into a folder. The module-level `folderIdCache` maps a
    '/'-joined relative folder path to the id it resolved to. */
module Upload {
  import opened Strings
  import opened Options

  /** A Drive id. Real ids are non-empty strings, so the truthiness test on a
      cached id always passes; here they are numbered so that the store can
      hand out fresh ones. */
  type FolderId = nat

  const FOLDER_MIME := "application/vnd.google-apps.folder"
  const DOCX_MIME := "application/vnd.openxmlformats-officedocument.wordprocessingml.document"
  const GOOGLE_DOC_MIME := "application/vnd.google-apps.document"

  /** The folders of the store by (parent id, name), the next fresh id, and how
      many `getFolderIdByName` lookups and `createFolder` calls were made. */
  datatype Store = Store(folders: map<(FolderId, string), FolderId>, nextId: FolderId, lookups: nat, creates: nat)

  /** Every folder id in the store was handed out before `nextId`. */
  ghost predicate Allocated(d: Store) {
    forall key :: key in d.folders ==> d.folders[key] < d.nextId
  }

  // ---------------------------------------------------------------------
  // getOrCreateFolderByPath
  // ---------------------------------------------------------------------

  /** The state the resolution loop threads through its iterations: the
      cache, the store, `lastParentId` and `relPath`. */
  datatype Walk = Walk(cache: map<string, FolderId>, store: Store, parent: FolderId, relPath: string)

  /** The cache key of segment `i`: `parts[0]/.../parts[i]`. */
  function PrefixKey(parts: seq<string>, i: nat): string
    requires i < |parts|
  {
    Join(parts[..i + 1], "/")
  }

  lemma PrefixKeyFirst(parts: seq<string>)
    requires |parts| >= 1
    ensures PrefixKey(parts, 0) == parts[0]
  {
    assert parts[..1] == [parts[0]];
  }

  lemma PrefixKeyNext(parts: seq<string>, i: nat)
    requires i + 1 < |parts|
    ensures PrefixKey(parts, i + 1) == PrefixKey(parts, i) + "/" + parts[i + 1]
  {
    assert parts[..i + 2] == parts[..i + 1] + [parts[i + 1]];
    JoinSnoc(parts[..i + 1], parts[i + 1], "/");
  }

  /** Prefix keys of a path are prefix keys of any longer path it starts. */
  lemma PrefixKeyOfPrefix(parts: seq<string>, n: nat, i: nat)
    requires i < n <= |parts|
    ensures PrefixKey(parts[..n], i) == PrefixKey(parts, i)
  {
    assert parts[..n][..i + 1] == parts[..i + 1];
  }

  /** One iteration of the loop, for segment `i`: extend `relPath`; on a
      cache hit only move to the cached folder; otherwise look the name up
      under the current parent and, when it is not there, create it; cache
      the id either way. */
  function ResolveSegment(w: Walk, parts: seq<string>, i: nat): (r: Walk)
    requires i < |parts|
    ensures r.relPath == (if i == 0 then parts[0] else w.relPath + "/" + parts[i])
    ensures r.relPath in r.cache && r.cache[r.relPath] == r.parent
    ensures r.cache.Keys == w.cache.Keys + {r.relPath}
    ensures forall k :: k in w.cache ==> r.cache[k] == w.cache[k]
    ensures r.relPath in w.cache ==> r.store == w.store && r.parent == w.cache[r.relPath]
    ensures r.relPath !in w.cache ==> r.store.lookups == w.store.lookups + 1
    ensures r.relPath !in w.cache && (w.parent, parts[i]) in w.store.folders ==>
      r.parent == w.store.folders[(w.parent, parts[i])]
      && r.store == w.store.(lookups := w.store.lookups + 1)
    ensures r.relPath !in w.cache && (w.parent, parts[i]) !in w.store.folders ==>
      r.parent == w.store.nextId
      && r.store.folders == w.store.folders[(w.parent, parts[i]) := w.store.nextId]
      && r.store.nextId == w.store.nextId + 1
      && r.store.creates == w.store.creates + 1
    ensures Allocated(w.store) ==> Allocated(r.store)
  {
    var name := parts[i];
    var rel := if i == 0 then name else w.relPath + "/" + name;
    if rel in w.cache then
      w.(parent := w.cache[rel], relPath := rel)
    else
      var d := w.store.(lookups := w.store.lookups + 1);
      if (w.parent, name) in d.folders then
        var id := d.folders[(w.parent, name)];
        Walk(w.cache[rel := id], d, id, rel)
      else
        var id := d.nextId;
        var d' := d.(folders := d.folders[(w.parent, name) := id], nextId := id + 1, creates := d.creates + 1);
        Walk(w.cache[rel := id], d', id, rel)
  }

  /** The loop from segment `i` on. */
  function ResolveFrom(w: Walk, parts: seq<string>, i: nat): Walk
    requires i <= |parts|
    decreases |parts| - i
  {
    if i == |parts| then w
    else ResolveFrom(ResolveSegment(w, parts, i), parts, i + 1)
  }

  /** `getOrCreateFolderByPath(drive, parentId, pathParts)` against the
      cache and store it starts from. With no parts it returns `parentId` and
      touches nothing. */
  function Resolve(cache: map<string, FolderId>, store: Store, parentId: FolderId, parts: seq<string>): (r: Walk)
    ensures parts == [] ==> r.parent == parentId && r.cache == cache && r.store == store
  {
    ResolveFrom(Walk(cache, store, parentId, ""), parts, 0)
  }

  /** What the loop keeps from segment `i` on, when `relPath` holds the key
      of the segment before. */
  lemma ResolveFromFacts(w: Walk, parts: seq<string>, i: nat)
    requires i <= |parts|
    requires i > 0 ==> w.relPath == PrefixKey(parts, i - 1)
    ensures var r := ResolveFrom(w, parts, i);
      && (forall k :: k in w.cache ==> k in r.cache && r.cache[k] == w.cache[k])
      && (forall j :: i <= j < |parts| ==> PrefixKey(parts, j) in r.cache)
      && (forall k :: k in r.cache ==> k in w.cache || exists j :: i <= j < |parts| && k == PrefixKey(parts, j))
      && (i < |parts| ==> r.parent == r.cache[PrefixKey(parts, |parts| - 1)])
      && (i == |parts| ==> r == w)
      && ((forall j :: i <= j < |parts| ==> PrefixKey(parts, j) in w.cache) ==> r.cache == w.cache && r.store == w.store)
      && (Allocated(w.store) ==> Allocated(r.store))
      && w.store.lookups <= r.store.lookups <= w.store.lookups + (|parts| - i)
      && r.store.creates - w.store.creates <= r.store.lookups - w.store.lookups
  {
    ResolveFromCaches(w, parts, i);
    ResolveFromCalls(w, parts, i);
  }

  /** The cache side of `ResolveFromFacts`. */
  lemma ResolveFromCaches(w: Walk, parts: seq<string>, i: nat)
    requires i <= |parts|
    requires i > 0 ==> w.relPath == PrefixKey(parts, i - 1)
    ensures var r := ResolveFrom(w, parts, i);
      && (forall k :: k in w.cache ==> k in r.cache && r.cache[k] == w.cache[k])
      && (forall j :: i <= j < |parts| ==> PrefixKey(parts, j) in r.cache)
      && (forall k :: k in r.cache ==> k in w.cache || exists j :: i <= j < |parts| && k == PrefixKey(parts, j))
      && (i < |parts| ==> r.parent == r.cache[PrefixKey(parts, |parts| - 1)])
  {
    ResolveFromGrows(w, parts, i);
    ResolveFromAddsOnlyPrefixes(w, parts, i);
  }

  /** Resolving from segment `i` keeps every cached entry and caches every
      later prefix, the last one naming the folder returned. */
  lemma {:induction false} ResolveFromGrows(w: Walk, parts: seq<string>, i: nat)
    requires i <= |parts|
    requires i > 0 ==> w.relPath == PrefixKey(parts, i - 1)
    decreases |parts| - i
    ensures var r := ResolveFrom(w, parts, i);
      && (forall k :: k in w.cache ==> k in r.cache && r.cache[k] == w.cache[k])
      && (forall j :: i <= j < |parts| ==> PrefixKey(parts, j) in r.cache)
      && (i < |parts| ==> r.parent == r.cache[PrefixKey(parts, |parts| - 1)])
  {
    if i < |parts| {
      var w1 := ResolveSegment(w, parts, i);
      if i == 0 { PrefixKeyFirst(parts); } else { PrefixKeyNext(parts, i - 1); }
      assert w1.relPath == PrefixKey(parts, i);
      ResolveFromGrows(w1, parts, i + 1);
      var r := ResolveFrom(w1, parts, i + 1);
      assert ResolveFrom(w, parts, i) == r;
      assert w1.relPath in w1.cache;
    }
  }

  /** Resolving from segment `i` adds no key but the later prefixes. */
  lemma {:induction false} ResolveFromAddsOnlyPrefixes(w: Walk, parts: seq<string>, i: nat)
    requires i <= |parts|
    requires i > 0 ==> w.relPath == PrefixKey(parts, i - 1)
    decreases |parts| - i
    ensures var r := ResolveFrom(w, parts, i);
      forall k :: k in r.cache ==> k in w.cache || exists j :: i <= j < |parts| && k == PrefixKey(parts, j)
  {
    if i < |parts| {
      var w1 := ResolveSegment(w, parts, i);
      if i == 0 { PrefixKeyFirst(parts); } else { PrefixKeyNext(parts, i - 1); }
      assert w1.relPath == PrefixKey(parts, i);
      ResolveFromAddsOnlyPrefixes(w1, parts, i + 1);
      var r := ResolveFrom(w, parts, i);
      assert r == ResolveFrom(w1, parts, i + 1);
      forall k | k in r.cache
        ensures k in w.cache || exists j :: i <= j < |parts| && k == PrefixKey(parts, j)
      {
        if k !in w1.cache {
          var j :| i + 1 <= j < |parts| && k == PrefixKey(parts, j);
        } else if k !in w.cache {
          assert k == PrefixKey(parts, i);
        }
      }
    }
  }

  /** The store side of `ResolveFromFacts`: calls made and folders created. */
  lemma {:induction false} ResolveFromCalls(w: Walk, parts: seq<string>, i: nat)
    requires i <= |parts|
    requires i > 0 ==> w.relPath == PrefixKey(parts, i - 1)
    decreases |parts| - i
    ensures var r := ResolveFrom(w, parts, i);
      && (i == |parts| ==> r == w)
      && ((forall j :: i <= j < |parts| ==> PrefixKey(parts, j) in w.cache) ==> r.cache == w.cache && r.store == w.store)
      && (Allocated(w.store) ==> Allocated(r.store))
      && w.store.lookups <= r.store.lookups <= w.store.lookups + (|parts| - i)
      && r.store.creates - w.store.creates <= r.store.lookups - w.store.lookups
  {
    if i < |parts| {
      var w1 := ResolveSegment(w, parts, i);
      if i == 0 { PrefixKeyFirst(parts); } else { PrefixKeyNext(parts, i - 1); }
      assert w1.relPath == PrefixKey(parts, i);
      ResolveFromCalls(w1, parts, i + 1);
      var r := ResolveFrom(w, parts, i);
      assert r == ResolveFrom(w1, parts, i + 1);
    }
  }

  /** After a resolution every prefix key of the path is cached, earlier
      entries are kept as they were, and nothing else was added. */
  lemma ResolveCachesEveryPrefix(cache: map<string, FolderId>, store: Store, parentId: FolderId, parts: seq<string>)
    ensures var r := Resolve(cache, store, parentId, parts);
      && (forall j :: 0 <= j < |parts| ==> PrefixKey(parts, j) in r.cache)
      && (forall k :: k in cache ==> k in r.cache && r.cache[k] == cache[k])
      && (forall k :: k in r.cache ==> k in cache || exists j :: 0 <= j < |parts| && k == PrefixKey(parts, j))
  {
    ResolveFromFacts(Walk(cache, store, parentId, ""), parts, 0);
  }

  /** For a non-empty path the id returned is the one cached under the full
      relative path. */
  lemma ResolveReturnsCachedId(cache: map<string, FolderId>, store: Store, parentId: FolderId, parts: seq<string>)
    requires |parts| >= 1
    ensures var r := Resolve(cache, store, parentId, parts);
      Join(parts, "/") in r.cache && r.parent == r.cache[Join(parts, "/")]
  {
    ResolveFromFacts(Walk(cache, store, parentId, ""), parts, 0);
    assert parts[..|parts|] == parts;
  }

  /** A path whose every prefix is cached costs no lookup and no create,
      leaves the cache as it is, and resolves to the cached id whatever root
      it is resolved under: the key ignores the root. */
  lemma ResolveCachedPathMakesNoCalls(cache: map<string, FolderId>, store: Store, parentId: FolderId, parts: seq<string>)
    requires forall j :: 0 <= j < |parts| ==> PrefixKey(parts, j) in cache
    ensures var r := Resolve(cache, store, parentId, parts);
      && r.cache == cache && r.store == store
      && (|parts| >= 1 ==> r.parent == cache[PrefixKey(parts, |parts| - 1)])
  {
    ResolveFromFacts(Walk(cache, store, parentId, ""), parts, 0);
  }

  /** Resolving the same path a second time, under any root, makes zero
      store calls and returns the same id. */
  lemma ResolveTwice(cache: map<string, FolderId>, store: Store, parentId: FolderId, otherRoot: FolderId, parts: seq<string>)
    requires |parts| >= 1
    ensures var first := Resolve(cache, store, parentId, parts);
      var second := Resolve(first.cache, first.store, otherRoot, parts);
      second.store == first.store && second.cache == first.cache && second.parent == first.parent
  {
    var first := Resolve(cache, store, parentId, parts);
    ResolveFromFacts(Walk(cache, store, parentId, ""), parts, 0);
    ResolveCachedPathMakesNoCalls(first.cache, first.store, otherRoot, parts);
  }

  /** Each segment costs at most one lookup, a create only follows a failed
      lookup, and created folders get fresh ids. */
  lemma ResolveCallBounds(cache: map<string, FolderId>, store: Store, parentId: FolderId, parts: seq<string>)
    requires Allocated(store)
    ensures var r := Resolve(cache, store, parentId, parts);
      && store.lookups <= r.store.lookups <= store.lookups + |parts|
      && r.store.creates - store.creates <= r.store.lookups - store.lookups
      && Allocated(r.store)
  {
    ResolveFromFacts(Walk(cache, store, parentId, ""), parts, 0);
  }

  // ---------------------------------------------------------------------
  // doUpload's derivations
  // ---------------------------------------------------------------------

  /** `fileName.split('.')[0]`: the name of the converted Google document is
      the file name up to its first '.'. */
  function GoogleDocName(fileName: string): (r: string)
    ensures StartsWith(fileName, r) && '.' !in r
    ensures |r| < |fileName| ==> fileName[|r|] == '.'
    ensures '.' !in fileName ==> r == fileName
  {
    Split(fileName, '.')[0]
  }

  /** The conversion test as written: `resp.data.mimeType = DOCX_MIME` ASSIGNS
      the mime type and yields the (truthy) string it assigned, whatever the
      store reported. Result: whether the copy runs, and the mime type left
      in the response. */
  function ConvertCheckAsWritten(reported: string): (r: (bool, string))
    ensures r.0 && r.1 == DOCX_MIME
  {
    var written := DOCX_MIME;
    (written != "", written)
  }

  /** The evidently intended test: convert only Word documents. */
  predicate ShouldConvert(reported: string) {
    reported == DOCX_MIME
  }

  /** A PNG upload is converted as written, and is not by the intended test. */
  lemma AsWrittenConvertsEveryUpload()
    ensures ConvertCheckAsWritten("image/png").0
    ensures !ShouldConvert("image/png")
    ensures forall m :: ShouldConvert(m) ==> ConvertCheckAsWritten(m).0
  {
  }

  /** A file in the store: its name, its folder and its mime type. */
  datatype RemoteFile = RemoteFile(name: string, parent: FolderId, mimeType: string)

  /** What the store does with one upload: the mime type it reports, whether
      `files.create` succeeded and whether the `files.copy` to a Google
      document succeeded. */
  datatype UploadResult = UploadResult(mimeType: string, created: bool, copied: bool)

  /** The files one upload leaves in the store: nothing when the create
      failed; the Google document alone when it was converted (the upload is
      deleted after a successful copy); the upload itself otherwise. */
  function UploadedFiles(fileName: string, parentId: FolderId, res: UploadResult): (fs: seq<RemoteFile>)
    ensures |fs| <= 1
    ensures |fs| == 1 <==> res.created
    ensures forall f :: f in fs ==> f.parent == parentId
    ensures res.created && ShouldConvert(res.mimeType) && res.copied ==>
      fs == [RemoteFile(GoogleDocName(fileName), parentId, GOOGLE_DOC_MIME)]
    ensures res.created && !(ShouldConvert(res.mimeType) && res.copied) ==>
      fs == [RemoteFile(fileName, parentId, res.mimeType)]
  {
    if !res.created then []
    else if ShouldConvert(res.mimeType) && res.copied then
      [RemoteFile(GoogleDocName(fileName), parentId, GOOGLE_DOC_MIME)]
    else [RemoteFile(fileName, parentId, res.mimeType)]
  }

  /** The folder a file goes into: the root for a one-part path, otherwise
      the resolution of every part but the last (the file name). */
  function UploadParent(cache: map<string, FolderId>, store: Store, folderId: FolderId, pathParts: seq<string>): (r: Walk)
    requires |pathParts| >= 1
    ensures |pathParts| == 1 ==> r.parent == folderId && r.cache == cache && r.store == store
  {
    if |pathParts| > 1 then Resolve(cache, store, folderId, pathParts[..|pathParts| - 1])
    else Walk(cache, store, folderId, "")
  }

  // ---------------------------------------------------------------------
  // listLocalFiles and the handler's relative paths
  // ---------------------------------------------------------------------

  /** A local directory entry: a file with its size, or a directory with its
      entries in `readdir` order. */
  datatype LocalEntry = LocalFile(name: string, size: nat) | LocalDir(name: string, entries: seq<LocalEntry>)

  /** One callback of `listLocalFiles`: the joined path, the chain of names
      from the listed root down to the entry, whether it is a directory, and
      the size of a file. */
  datatype Listed = Listed(path: string, parts: seq<string>, isDir: bool, size: nat)

  /** A name `readdir` can return: non-empty, without '/'. */
  predicate ValidName(n: string) {
    n != "" && '/' !in n
  }

  predicate ValidEntries(entries: seq<LocalEntry>)
    decreases entries
  {
    entries != [] ==>
      && ValidName(entries[0].name)
      && (entries[0].LocalDir? ==> ValidEntries(entries[0].entries))
      && ValidEntries(entries[1..])
  }

  /** `Path.join(dir, name)` for a name without separators. */
  function JoinPath(dir: string, name: string): string {
    if EndsWith(dir, "/") then dir + name else dir + "/" + name
  }

  /** The callbacks of `listLocalFiles(dirPath, callback)`, in order: each
      entry is reported, and a directory is reported BEFORE the recursion
      into it. `prefix` is the chain of names down to `dirPath`. */
  function ListLocal(dirPath: string, prefix: seq<string>, entries: seq<LocalEntry>): seq<Listed>
    decreases entries
  {
    if entries == [] then []
    else
      match entries[0]
      case LocalFile(n, size) =>
        [Listed(JoinPath(dirPath, n), prefix + [n], false, size)] + ListLocal(dirPath, prefix, entries[1..])
      case LocalDir(n, sub) =>
        var p := JoinPath(dirPath, n);
        [Listed(p, prefix + [n], true, 0)] + ListLocal(p, prefix + [n], sub) + ListLocal(dirPath, prefix, entries[1..])
  }

  /** Every report lies below `prefix`. */
  ghost predicate Below(l: seq<Listed>, prefix: seq<string>) {
    forall k :: 0 <= k < |l| ==> |l[k].parts| > |prefix| && l[k].parts[..|prefix|] == prefix
  }

  /** Report `k` comes after the report of the directory it sits in. */
  ghost predicate DirReportedBefore(l: seq<Listed>, k: nat)
    requires k < |l| && |l[k].parts| >= 1
  {
    exists j :: 0 <= j < k && l[j].isDir && l[j].parts == l[k].parts[..|l[k].parts| - 1]
  }

  /** Every entry deeper than one level below `prefix` comes after the
      report of its own directory. */
  ghost predicate Preordered(l: seq<Listed>, prefix: seq<string>)
    requires Below(l, prefix)
  {
    forall k :: 0 <= k < |l| && |l[k].parts| > |prefix| + 1 ==> DirReportedBefore(l, k)
  }

  lemma BelowAppend(a: seq<Listed>, b: seq<Listed>, prefix: seq<string>)
    requires Below(a, prefix) && Below(b, prefix)
    ensures Below(a + b, prefix)
  {
    forall k | 0 <= k < |a + b|
      ensures |(a + b)[k].parts| > |prefix| && (a + b)[k].parts[..|prefix|] == prefix
    {
      if k >= |a| { assert (a + b)[k] == b[k - |a|]; }
    }
  }

  lemma PreorderedAppend(a: seq<Listed>, b: seq<Listed>, prefix: seq<string>)
    requires Below(a, prefix) && Below(b, prefix)
    requires Preordered(a, prefix) && Preordered(b, prefix)
    ensures Below(a + b, prefix) && Preordered(a + b, prefix)
  {
    BelowAppend(a, b, prefix);
    var l := a + b;
    forall k | 0 <= k < |l| && |l[k].parts| > |prefix| + 1
      ensures DirReportedBefore(l, k)
    {
      if k < |a| {
        assert l[k] == a[k];
        assert DirReportedBefore(a, k);
        var j :| 0 <= j < k && a[j].isDir && a[j].parts == a[k].parts[..|a[k].parts| - 1];
        assert l[j] == a[j];
      } else {
        var kb := k - |a|;
        assert l[k] == b[kb];
        assert DirReportedBefore(b, kb);
        var j :| 0 <= j < kb && b[j].isDir && b[j].parts == b[kb].parts[..|b[kb].parts| - 1];
        assert l[j + |a|] == b[j];
      }
    }
  }

  /** A chain that starts with `prefix + [n]` starts with `prefix`. */
  lemma ChainPrefix(v: seq<string>, prefix: seq<string>, n: string)
    requires |v| >= |prefix| + 1 && v[..|prefix| + 1] == prefix + [n]
    ensures v[..|prefix|] == prefix
  {
    assert v[..|prefix|] == v[..|prefix| + 1][..|prefix|];
  }

  /** A directory's report followed by the reports of its contents lies
      below the directory's parent. */
  lemma BelowDir(head: Listed, inner: seq<Listed>, prefix: seq<string>, n: string)
    requires head.parts == prefix + [n]
    requires Below(inner, prefix + [n])
    ensures Below([head] + inner, prefix)
  {
    var l := [head] + inner;
    forall k | 0 <= k < |l|
      ensures |l[k].parts| > |prefix| && l[k].parts[..|prefix|] == prefix
    {
      if k == 0 {
        ChainPrefix(head.parts, prefix, n);
      } else {
        assert l[k] == inner[k - 1];
        ChainPrefix(inner[k - 1].parts, prefix, n);
      }
    }
  }

  /** ... and is in pre-order. */
  lemma PreorderedDir(head: Listed, inner: seq<Listed>, prefix: seq<string>, n: string)
    requires head.isDir && head.parts == prefix + [n]
    requires Below(inner, prefix + [n]) && Preordered(inner, prefix + [n])
    ensures Below([head] + inner, prefix) && Preordered([head] + inner, prefix)
  {
    BelowDir(head, inner, prefix, n);
    var l := [head] + inner;
    forall k | 0 <= k < |l| && |l[k].parts| > |prefix| + 1
      ensures DirReportedBefore(l, k)
    {
      PreorderedDirAt(head, inner, prefix, n, k);
    }
  }

  /** The pre-order of a directory's report and its contents, at report `k`. */
  lemma PreorderedDirAt(head: Listed, inner: seq<Listed>, prefix: seq<string>, n: string, k: nat)
    requires head.isDir && head.parts == prefix + [n]
    requires Below(inner, prefix + [n]) && Preordered(inner, prefix + [n])
    requires k < |inner| + 1 && |([head] + inner)[k].parts| > |prefix| + 1
    ensures DirReportedBefore([head] + inner, k)
  {
    assert k != 0;
    if |inner[k - 1].parts| == |prefix| + 2 {
      ChildOfDirReported(head, inner, prefix + [n], k);
    } else {
      DeepChildReported(head, inner, prefix + [n], k);
    }
  }

  /** An entry directly inside the directory comes after the directory's
      own report. */
  lemma ChildOfDirReported(head: Listed, inner: seq<Listed>, parts: seq<string>, k: nat)
    requires head.isDir && head.parts == parts
    requires Below(inner, parts)
    requires 1 <= k <= |inner| && |inner[k - 1].parts| == |parts| + 1
    ensures DirReportedBefore([head] + inner, k)
  {
    var v := inner[k - 1];
    assert v.parts[..|parts|] == parts;
    assert v.parts[..|v.parts| - 1] == parts;
    ReportedAfter(head, inner, k, 0);
  }

  /** A deeper entry comes after its own directory's report among the
      contents. */
  lemma DeepChildReported(head: Listed, inner: seq<Listed>, parts: seq<string>, k: nat)
    requires Below(inner, parts) && Preordered(inner, parts)
    requires 1 <= k <= |inner| && |inner[k - 1].parts| > |parts| + 1
    ensures DirReportedBefore([head] + inner, k)
  {
    var j := DirOf(inner, parts, k - 1);
    InnerReportedAfter(head, inner, k, j);
  }

  /** The position of the directory report that a deeper report `i` of a
      pre-ordered listing comes after. */
  lemma DirOf(l: seq<Listed>, prefix: seq<string>, i: nat) returns (j: nat)
    requires Below(l, prefix) && Preordered(l, prefix)
    requires i < |l| && |l[i].parts| > |prefix| + 1
    ensures j < i && l[j].isDir && l[j].parts == l[i].parts[..|l[i].parts| - 1]
  {
    assert DirReportedBefore(l, i);
    j :| 0 <= j < i && l[j].isDir && l[j].parts == l[i].parts[..|l[i].parts| - 1];
  }

  /** Report `j + 1` of `[head] + inner` is the directory of report `k`. */
  lemma InnerReportedAfter(head: Listed, inner: seq<Listed>, k: nat, j: nat)
    requires 1 <= k <= |inner| && j < k - 1
    requires |inner[k - 1].parts| >= 1
    requires inner[j].isDir && inner[j].parts == inner[k - 1].parts[..|inner[k - 1].parts| - 1]
    ensures DirReportedBefore([head] + inner, k)
  {
    var l := [head] + inner;
    assert l[k] == inner[k - 1] && l[j + 1] == inner[j];
  }

  /** Report `j` of `[head] + inner` is the directory of report `k`. */
  lemma ReportedAfter(head: Listed, inner: seq<Listed>, k: nat, j: nat)
    requires 1 <= k <= |inner| && |inner[k - 1].parts| >= 1 && j < k
    requires var d := if j == 0 then head else inner[j - 1];
      d.isDir && d.parts == inner[k - 1].parts[..|inner[k - 1].parts| - 1]
    ensures DirReportedBefore([head] + inner, k)
  {
    var l := [head] + inner;
    assert l[k] == inner[k - 1];
    assert l[j] == if j == 0 then head else inner[j - 1];
  }

  /** `listLocalFiles` reports in pre-order: every report lies below the
      listed directory, and every entry in a subdirectory comes after the
      report of that subdirectory. */
  lemma {:induction false} ListLocalPreorder(dirPath: string, prefix: seq<string>, entries: seq<LocalEntry>)
    decreases entries
    ensures Below(ListLocal(dirPath, prefix, entries), prefix)
    ensures Preordered(ListLocal(dirPath, prefix, entries), prefix)
  {
    if entries != [] {
      var rest := ListLocal(dirPath, prefix, entries[1..]);
      ListLocalPreorder(dirPath, prefix, entries[1..]);
      var n := entries[0].name;
      var parts := prefix + [n];
      assert |parts| == |prefix| + 1 && parts[..|prefix|] == prefix;
      match entries[0]
      case LocalFile(_, size) =>
        var head := [Listed(JoinPath(dirPath, n), parts, false, size)];
        assert Below(head, prefix);
        PreorderedAppend(head, rest, prefix);
      case LocalDir(_, sub) =>
        var p := JoinPath(dirPath, n);
        var inner := ListLocal(p, parts, sub);
        ListLocalPreorder(p, parts, sub);
        PreorderedDir(Listed(p, parts, true, 0), inner, prefix, n);
        PreorderedAppend([Listed(p, parts, true, 0)] + inner, rest, prefix);
    }
  }

  /** `relPath` of the handler: the file path with the source folder and,
      unless the source ends with '/', the separator after it removed
      (`substring` past the end gives ""). */
  function RelPath(source: string, filePath: string): string {
    var cut := if EndsWith(source, "/") then |source| else |source| + 1;
    if cut <= |filePath| then filePath[cut..] else ""
  }

  /** The directory a chain of names leads to from `source`. */
  function DirPath(source: string, prefix: seq<string>): string {
    if prefix == [] then source else JoinPath(source, Join(prefix, "/"))
  }

  lemma {:induction false} JoinOfValidNames(parts: seq<string>)
    requires |parts| >= 1 && forall i :: 0 <= i < |parts| ==> ValidName(parts[i])
    ensures |Join(parts, "/")| >= 1 && Join(parts, "/")[|Join(parts, "/")| - 1] != '/'
    ensures !EndsWith(Join(parts, "/"), "/")
  {
    var last := parts[|parts| - 1];
    assert last[|last| - 1] in last;
    if |parts| > 1 {
      var init := parts[..|parts| - 1];
      assert parts == init + [last];
      JoinSnoc(init, last, "/");
    }
    var j := Join(parts, "/");
    assert j[|j| - 1] == last[|last| - 1];
  }

  /** Joining a name onto `x + j` when `j` does not end with '/'. */
  lemma JoinPathAfter(x: string, j: string, n: string)
    requires |j| >= 1 && !EndsWith(j, "/")
    ensures JoinPath(x + j, n) == x + (j + "/" + n)
  {
    EndsWithAppend(x, j, "/");
    AppendAssoc(x, j, "/");
    AppendAssoc(x, j + "/", n);
  }

  lemma EndsWithAppend(a: string, b: string, suffix: string)
    requires |suffix| <= |b|
    ensures EndsWith(a + b, suffix) <==> EndsWith(b, suffix)
  {
    assert (a + b)[|a + b| - |suffix|..] == b[|b| - |suffix|..];
  }

  /** The directory of a chain, joined with one more name, is the source
      joined with the longer chain. */
  lemma DirPathSnoc(source: string, prefix: seq<string>, n: string)
    requires forall i :: 0 <= i < |prefix| ==> ValidName(prefix[i])
    ensures JoinPath(DirPath(source, prefix), n) == JoinPath(source, Join(prefix + [n], "/"))
  {
    if prefix == [] {
      assert prefix + [n] == [n];
    } else {
      JoinSnoc(prefix, n, "/");
      JoinOfValidNames(prefix);
      JoinPathTwice(source, Join(prefix, "/"), n);
    }
  }

  lemma JoinPathTwice(source: string, j: string, n: string)
    requires |j| >= 1 && !EndsWith(j, "/")
    ensures JoinPath(JoinPath(source, j), n) == JoinPath(source, j + "/" + n)
  {
    if EndsWith(source, "/") {
      JoinPathAfter(source, j, n);
    } else {
      JoinPathAfter(source + "/", j, n);
    }
  }

  /** Each report's path is the source joined with its chain of names, and
      the chain is a non-empty sequence of valid names. */
  ghost predicate PathsFollowParts(source: string, l: seq<Listed>) {
    forall v :: v in l ==>
      v.path == JoinPath(source, Join(v.parts, "/")) && |v.parts| >= 1
      && (forall i :: 0 <= i < |v.parts| ==> ValidName(v.parts[i]))
  }

  /** Every reported path is the source joined with the entry's chain of
      names. */
  lemma {:induction false} ListedPaths(source: string, prefix: seq<string>, entries: seq<LocalEntry>)
    requires ValidEntries(entries)
    requires forall i :: 0 <= i < |prefix| ==> ValidName(prefix[i])
    decreases entries
    ensures PathsFollowParts(source, ListLocal(DirPath(source, prefix), prefix, entries))
  {
    if entries != [] {
      var dir := DirPath(source, prefix);
      var n := entries[0].name;
      var parts := prefix + [n];
      assert forall i :: 0 <= i < |parts| ==> ValidName(parts[i]);
      ListedPaths(source, prefix, entries[1..]);
      var rest := ListLocal(dir, prefix, entries[1..]);
      var p := JoinPath(dir, n);
      DirPathSnoc(source, prefix, n);
      match entries[0]
      case LocalFile(_, size) =>
        assert ListLocal(dir, prefix, entries) == [Listed(p, parts, false, size)] + rest;
      case LocalDir(_, sub) =>
        assert DirPath(source, parts) == p;
        ListedPaths(source, parts, sub);
        assert ListLocal(dir, prefix, entries) == [Listed(p, parts, true, 0)] + ListLocal(p, parts, sub) + rest;
    }
  }

  /** The handler's `relPath.split('/')` gives back each entry's chain of
      names. */
  lemma ListedRelativeParts(source: string, entries: seq<LocalEntry>)
    requires ValidEntries(entries)
    ensures forall v :: v in ListLocal(source, [], entries) ==>
      Split(RelPath(source, v.path), '/') == v.parts
  {
    ListedPaths(source, [], entries);
    assert DirPath(source, []) == source;
    forall v | v in ListLocal(source, [], entries)
      ensures Split(RelPath(source, v.path), '/') == v.parts
    {
      var j := Join(v.parts, "/");
      assert RelPath(source, v.path) == j;
      SplitJoin(v.parts, '/');
    }
  }

  /** The number of files (not directories) among the reports. */
  function CountFiles(listing: seq<Listed>): (n: nat)
    ensures n <= |listing|
  {
    if listing == [] then 0
    else CountFiles(listing[..|listing| - 1]) + (if listing[|listing| - 1].isDir then 0 else 1)
  }

  /** The cache and store after resolving the directories of a listing in
      order, and nothing else. */
  function DirsResolved(cache: map<string, FolderId>, store: Store, target: FolderId, listing: seq<Listed>): (map<string, FolderId>, Store)
  {
    if listing == [] then (cache, store)
    else
      var (c, s) := DirsResolved(cache, store, target, listing[..|listing| - 1]);
      var last := listing[|listing| - 1];
      if last.isDir then
        var w := Resolve(c, s, target, last.parts);
        (w.cache, w.store)
      else (c, s)
  }

  /** The files the uploads of a listing leave in the store, in listing
      order: each file report (`results[k]` for report `k`) goes into the
      folder `UploadParent` gives for the cache and store as the directories
      before it left them. */
  function UploadsOf(cache: map<string, FolderId>, store: Store, target: FolderId, listing: seq<Listed>, results: seq<UploadResult>): seq<RemoteFile>
    requires |results| == |listing|
  {
    if listing == [] then []
    else
      var n := |listing| - 1;
      var prev := UploadsOf(cache, store, target, listing[..n], results[..n]);
      var v := listing[n];
      if v.isDir || v.parts == [] then prev
      else
        var (c, s) := DirsResolved(cache, store, target, listing[..n]);
        prev + UploadedFiles(v.parts[|v.parts| - 1], UploadParent(c, s, target, v.parts).parent, results[n])
  }

  /** At most one file per file report, and exactly one per file report
      whose create succeeded. */
  lemma {:induction false} UploadsOfCount(cache: map<string, FolderId>, store: Store, target: FolderId, listing: seq<Listed>, results: seq<UploadResult>)
    requires |results| == |listing|
    requires forall v :: v in listing ==> v.parts != []
    ensures |UploadsOf(cache, store, target, listing, results)| == CreatedFiles(listing, results)
    ensures CreatedFiles(listing, results) <= CountFiles(listing)
  {
    if listing != [] {
      var n := |listing| - 1;
      assert forall v :: v in listing[..n] ==> v in listing;
      UploadsOfCount(cache, store, target, listing[..n], results[..n]);
      assert listing[n] in listing;
    }
  }

  /** The number of file reports whose create succeeded. */
  function CreatedFiles(listing: seq<Listed>, results: seq<UploadResult>): nat
    requires |results| == |listing|
  {
    if listing == [] then 0
    else
      var n := |listing| - 1;
      CreatedFiles(listing[..n], results[..n]) + (if !listing[n].isDir && results[n].created then 1 else 0)
  }

  lemma ResolveFromUnfold(w: Walk, parts: seq<string>, i: nat)
    requires i < |parts|
    ensures ResolveFrom(w, parts, i) == ResolveFrom(ResolveSegment(w, parts, i), parts, i + 1)
  {
  }

  /** The three branches of one iteration, spelled out. */
  lemma SegmentCacheHit(w: Walk, parts: seq<string>, i: nat)
    requires i < |parts|
    requires (if i == 0 then parts[0] else w.relPath + "/" + parts[i]) in w.cache
    ensures var rel := if i == 0 then parts[0] else w.relPath + "/" + parts[i];
      ResolveSegment(w, parts, i) == Walk(w.cache, w.store, w.cache[rel], rel)
  {
  }

  lemma SegmentFound(w: Walk, parts: seq<string>, i: nat)
    requires i < |parts|
    requires (if i == 0 then parts[0] else w.relPath + "/" + parts[i]) !in w.cache
    requires (w.parent, parts[i]) in w.store.folders
    ensures var rel := if i == 0 then parts[0] else w.relPath + "/" + parts[i];
      var id := w.store.folders[(w.parent, parts[i])];
      ResolveSegment(w, parts, i) == Walk(w.cache[rel := id], w.store.(lookups := w.store.lookups + 1), id, rel)
  {
  }

  lemma SegmentCreated(w: Walk, parts: seq<string>, i: nat)
    requires i < |parts|
    requires (if i == 0 then parts[0] else w.relPath + "/" + parts[i]) !in w.cache
    requires (w.parent, parts[i]) !in w.store.folders
    ensures var rel := if i == 0 then parts[0] else w.relPath + "/" + parts[i];
      var d := w.store;
      var id := d.nextId;
      ResolveSegment(w, parts, i)
        == Walk(w.cache[rel := id], d.(folders := d.folders[(w.parent, parts[i]) := id], nextId := id + 1, lookups := d.lookups + 1, creates := d.creates + 1), id, rel)
  {
  }

  /** Every folder on the chain `parts` has its key in the cache. */
  ghost predicate CachedChain(cache: map<string, FolderId>, parts: seq<string>) {
    forall j :: 0 <= j < |parts| ==> PrefixKey(parts, j) in cache
  }

  /** Every directory among the first `k` reports has its chain cached. */
  ghost predicate DirsCached(cache: map<string, FolderId>, listing: seq<Listed>, k: nat)
    requires k <= |listing|
  {
    forall m :: 0 <= m < k && listing[m].isDir ==> CachedChain(cache, listing[m].parts)
  }

  /** When the directories reported so far are cached, so is the folder
      chain of the next file: its own directory was reported earlier. */
  lemma FileFolderCached(listing: seq<Listed>, k: nat, cache: map<string, FolderId>)
    requires Below(listing, []) && Preordered(listing, [])
    requires k < |listing| && !listing[k].isDir
    requires DirsCached(cache, listing, k)
    ensures CachedChain(cache, listing[k].parts[..|listing[k].parts| - 1])
  {
    var parts := listing[k].parts;
    if |parts| > 1 {
      assert DirReportedBefore(listing, k);
      var jd :| 0 <= jd < k && listing[jd].isDir && listing[jd].parts == parts[..|parts| - 1];
      assert CachedChain(cache, listing[jd].parts);
    }
  }

  /** A cache that keeps every key and adds the chain of a new directory
      report keeps `DirsCached` one report further. */
  lemma DirsCachedStep(before: map<string, FolderId>, after: map<string, FolderId>, listing: seq<Listed>, k: nat)
    requires k < |listing|
    requires DirsCached(before, listing, k)
    requires before.Keys <= after.Keys
    requires listing[k].isDir ==> CachedChain(after, listing[k].parts)
    ensures DirsCached(after, listing, k + 1)
  {
    forall m | 0 <= m < k + 1 && listing[m].isDir
      ensures CachedChain(after, listing[m].parts)
    {
      if m < k {
        assert CachedChain(before, listing[m].parts);
      }
    }
  }

  /** The counts and the resolutions of a listing prefix grow by one report
      at a time. */
  lemma ListingStep(cache: map<string, FolderId>, store: Store, target: FolderId, listing: seq<Listed>, results: seq<UploadResult>, k: nat)
    requires k < |listing| == |results|
    ensures CountFiles(listing[..k + 1]) == CountFiles(listing[..k]) + (if listing[k].isDir then 0 else 1)
    ensures var (c, s) := DirsResolved(cache, store, target, listing[..k]);
      DirsResolved(cache, store, target, listing[..k + 1])
        == if listing[k].isDir then (Resolve(c, s, target, listing[k].parts).cache, Resolve(c, s, target, listing[k].parts).store)
           else (c, s)
  {
    assert listing[..k + 1][..k] == listing[..k];
  }

  /** The uploads of a listing prefix grow by the files of one report. */
  lemma UploadsStep(cache: map<string, FolderId>, store: Store, target: FolderId, listing: seq<Listed>, results: seq<UploadResult>, k: nat)
    requires k < |listing| == |results|
    ensures var (c, s) := DirsResolved(cache, store, target, listing[..k]);
      var v := listing[k];
      var prev := UploadsOf(cache, store, target, listing[..k], results[..k]);
      UploadsOf(cache, store, target, listing[..k + 1], results[..k + 1])
        == if v.isDir || v.parts == [] then prev
           else prev + UploadedFiles(v.parts[|v.parts| - 1], UploadParent(c, s, target, v.parts).parent, results[k])
  {
    var l, r := listing[..k + 1], results[..k + 1];
    assert |l| - 1 == k && l[k] == listing[k] && r[k] == results[k];
    assert l[..k] == listing[..k];
    assert r[..k] == results[..k];
  }

  /** The state after the handler has worked through the first `k` reports
      of a listing, from `cache0`, `store0`, `count0` and `files0`: every file
      counted, the directories resolved in order and cached, and the uploads
      of the files in the store. */
  ghost predicate Handled(cache: map<string, FolderId>, store: Store, count: nat, files: seq<RemoteFile>,
                          cache0: map<string, FolderId>, store0: Store, count0: nat, files0: seq<RemoteFile>,
                          target: FolderId, listing: seq<Listed>, results: seq<UploadResult>, k: nat)
    requires k <= |listing| == |results|
  {
    && count == count0 + CountFiles(listing[..k])
    && (cache, store) == DirsResolved(cache0, store0, target, listing[..k])
    && DirsCached(cache, listing, k)
    && files == files0 + UploadsOf(cache0, store0, target, listing[..k], results[..k])
  }

  /** `Handled` over the whole listing, spelled out. */
  lemma HandledAll(cache: map<string, FolderId>, store: Store, count: nat, files: seq<RemoteFile>,
                   cache0: map<string, FolderId>, store0: Store, count0: nat, files0: seq<RemoteFile>,
                   target: FolderId, listing: seq<Listed>, results: seq<UploadResult>)
    requires |listing| == |results| && Below(listing, [])
    requires Handled(cache, store, count, files, cache0, store0, count0, files0, target, listing, results, |listing|)
    ensures count == count0 + CountFiles(listing)
    ensures (cache, store) == DirsResolved(cache0, store0, target, listing)
    ensures DirsCached(cache, listing, |listing|)
    ensures files == files0 + UploadsOf(cache0, store0, target, listing, results)
    ensures |files| == |files0| + CreatedFiles(listing, results) <= |files0| + CountFiles(listing)
  {
    assert listing[..|listing|] == listing && results[..|listing|] == results;
    forall v | v in listing
      ensures v.parts != []
    {
      var k :| 0 <= k < |listing| && listing[k] == v;
    }
    UploadsOfCount(cache0, store0, target, listing, results);
  }

  /** A file report whose folders are cached moves `Handled` one report
      further: it is counted, its upload is added, and the cache and store
      stay as they were. */
  lemma FileHandled(cache: map<string, FolderId>, store: Store, count: nat, files: seq<RemoteFile>, files': seq<RemoteFile>,
                    cache0: map<string, FolderId>, store0: Store, count0: nat, files0: seq<RemoteFile>,
                    target: FolderId, listing: seq<Listed>, results: seq<UploadResult>, k: nat)
    requires k < |listing| == |results| && !listing[k].isDir && listing[k].parts != []
    requires Handled(cache, store, count, files, cache0, store0, count0, files0, target, listing, results, k)
    requires var v := listing[k];
      files' == files + UploadedFiles(v.parts[|v.parts| - 1], UploadParent(cache, store, target, v.parts).parent, results[k])
    ensures Handled(cache, store, count + 1, files', cache0, store0, count0, files0, target, listing, results, k + 1)
  {
    ListingStep(cache0, store0, target, listing, results, k);
    UploadsStep(cache0, store0, target, listing, results, k);
    var v := listing[k];
    var prev := UploadsOf(cache0, store0, target, listing[..k], results[..k]);
    var added := UploadedFiles(v.parts[|v.parts| - 1], UploadParent(cache, store, target, v.parts).parent, results[k]);
    AppendAssoc(files0, prev, added);
    DirsCachedStep(cache, cache, listing, k);
  }

  /** The command's module state: the folder cache, the store it talks to,
      the files it has created there and the running file count. */
  class Uploader {
    var folderIdCache: map<string, FolderId>
    var store: Store
    var files: seq<RemoteFile>
    var fileCount: nat

    constructor (store: Store)
      ensures folderIdCache == map[] && this.store == store && files == [] && fileCount == 0
    {
      folderIdCache := map[];
      this.store := store;
      files := [];
      fileCount := 0;
    }

    /** `getFolderIdByName`: the first folder of that name under the parent. */
    method GetFolderIdByName(parentId: FolderId, name: string) returns (found: Option<FolderId>)
      modifies this`store
      ensures store == old(store).(lookups := old(store).lookups + 1)
      ensures found == if (parentId, name) in store.folders then Some(store.folders[(parentId, name)]) else None
    {
      store := store.(lookups := store.lookups + 1);
      found := if (parentId, name) in store.folders then Some(store.folders[(parentId, name)]) else None;
    }

    /** `createFolder`: a new folder with a fresh id under the parent. */
    method CreateFolder(parentId: FolderId, name: string) returns (id: FolderId)
      modifies this`store
      ensures id == old(store).nextId
      ensures store == old(store).(folders := old(store).folders[(parentId, name) := id], nextId := id + 1, creates := old(store).creates + 1)
    {
      id := store.nextId;
      store := store.(folders := store.folders[(parentId, name) := id], nextId := id + 1, creates := store.creates + 1);
    }

    /** One iteration of the loop of `getOrCreateFolderByPath`, for segment
        `pathIndex`, from `lastParentId` and `relPath`. */
    method ResolveSegmentStep(pathParts: seq<string>, pathIndex: nat, lastParentId: FolderId, relPath: string)
      returns (nextParentId: FolderId, nextRelPath: string)
      requires pathIndex < |pathParts|
      modifies this`folderIdCache, this`store
      ensures Walk(folderIdCache, store, nextParentId, nextRelPath)
        == ResolveSegment(Walk(old(folderIdCache), old(store), lastParentId, relPath), pathParts, pathIndex)
    {
      ghost var w := Walk(folderIdCache, store, lastParentId, relPath);
      var folderName := pathParts[pathIndex];
      nextRelPath := if pathIndex == 0 then folderName else relPath + "/" + folderName;
      if nextRelPath in folderIdCache {
        nextParentId := folderIdCache[nextRelPath];
        SegmentCacheHit(w, pathParts, pathIndex);
      } else {
        var found := GetFolderIdByName(lastParentId, folderName);
        if found.Some? {
          nextParentId := found.value;
          SegmentFound(w, pathParts, pathIndex);
        } else {
          nextParentId := CreateFolder(lastParentId, folderName);
          SegmentCreated(w, pathParts, pathIndex);
        }
        folderIdCache := folderIdCache[nextRelPath := nextParentId];
      }
    }

    /** `getOrCreateFolderByPath`: the loop over the segments, proved to do
        what `Resolve` says. */
    method GetOrCreateFolderByPath(parentId: FolderId, pathParts: seq<string>) returns (id: FolderId)
      modifies this`folderIdCache, this`store
      ensures var r := Resolve(old(folderIdCache), old(store), parentId, pathParts);
        id == r.parent && folderIdCache == r.cache && store == r.store
    {
      var lastParentId := parentId;
      var relPath := "";
      ghost var goal := Resolve(folderIdCache, store, parentId, pathParts);
      for pathIndex := 0 to |pathParts|
        invariant ResolveFrom(Walk(folderIdCache, store, lastParentId, relPath), pathParts, pathIndex) == goal
      {
        ResolveFromUnfold(Walk(folderIdCache, store, lastParentId, relPath), pathParts, pathIndex);
        lastParentId, relPath := ResolveSegmentStep(pathParts, pathIndex, lastParentId, relPath);
      }
      id := lastParentId;
    }

    /** `doUpload`: resolve the file's folder, create the file there, and
        convert a Word document to a Google document (with the intended
        mime-type test; see `ConvertCheckAsWritten`). */
    method DoUpload(folderId: FolderId, pathParts: seq<string>, result: UploadResult)
      requires |pathParts| >= 1
      modifies this`folderIdCache, this`store, this`files
      ensures var w := UploadParent(old(folderIdCache), old(store), folderId, pathParts);
        && folderIdCache == w.cache && store == w.store
        && files == old(files) + UploadedFiles(pathParts[|pathParts| - 1], w.parent, result)
    {
      var fileName := pathParts[|pathParts| - 1];
      var googleDocName := GoogleDocName(fileName);
      var parentId := folderId;
      if |pathParts| > 1 {
        parentId := GetOrCreateFolderByPath(folderId, pathParts[..|pathParts| - 1]);
      }
      if result.created {
        if ShouldConvert(result.mimeType) && result.copied {
          files := files + [RemoteFile(googleDocName, parentId, GOOGLE_DOC_MIME)];
        } else {
          files := files + [RemoteFile(fileName, parentId, result.mimeType)];
        }
      }
    }

    /** The handler's work on one report `v` whose relative path splits back
        into its chain of names: a directory is resolved (and cached); a
        file is counted and uploaded. A file whose folder chain is already
        cached makes no folder lookup or create. */
    method HandleListed(target: FolderId, source: string, v: Listed, result: UploadResult)
      requires Split(RelPath(source, v.path), '/') == v.parts
      modifies this`folderIdCache, this`store, this`files, this`fileCount
      ensures v.isDir ==> fileCount == old(fileCount) && files == old(files)
      ensures v.isDir ==> var w := Resolve(old(folderIdCache), old(store), target, v.parts);
        folderIdCache == w.cache && store == w.store
      ensures !v.isDir ==> fileCount == old(fileCount) + 1
      ensures !v.isDir ==> var w := UploadParent(old(folderIdCache), old(store), target, v.parts);
        && folderIdCache == w.cache && store == w.store
        && files == old(files) + UploadedFiles(v.parts[|v.parts| - 1], w.parent, result)
      ensures !v.isDir && CachedChain(old(folderIdCache), v.parts[..|v.parts| - 1]) ==>
        folderIdCache == old(folderIdCache) && store == old(store)
    {
      var pathParts := Split(RelPath(source, v.path), '/');
      if v.isDir {
        var _ := GetOrCreateFolderByPath(target, pathParts);
      } else {
        fileCount := fileCount + 1;
        ghost var cached := CachedChain(folderIdCache, pathParts[..|pathParts| - 1]);
        if |pathParts| > 1 && cached {
          ResolveCachedPathMakesNoCalls(folderIdCache, store, target, pathParts[..|pathParts| - 1]);
        }
        DoUpload(target, pathParts, result);
      }
    }

    /** What the handler has done after the first `k` reports of a listing,
        from a cache, a store, a count and a file list. */
    ghost predicate Progress(cache0: map<string, FolderId>, store0: Store, count0: nat, files0: seq<RemoteFile>,
                             target: FolderId, listing: seq<Listed>, results: seq<UploadResult>, k: nat)
      requires k <= |listing| == |results|
      reads this
    {
      Handled(folderIdCache, store, fileCount, files, cache0, store0, count0, files0, target, listing, results, k)
    }

    /** The handler on report `k` moves `Progress` one report further. */
    method HandleReportAt(target: FolderId, source: string, listing: seq<Listed>, results: seq<UploadResult>, k: nat,
                          ghost cache0: map<string, FolderId>, ghost store0: Store, ghost count0: nat, ghost files0: seq<RemoteFile>)
      requires Below(listing, []) && Preordered(listing, [])
      requires forall v :: v in listing ==> Split(RelPath(source, v.path), '/') == v.parts
      requires k < |listing| == |results|
      requires Progress(cache0, store0, count0, files0, target, listing, results, k)
      modifies this`folderIdCache, this`store, this`files, this`fileCount
      ensures Progress(cache0, store0, count0, files0, target, listing, results, k + 1)
    {
      assert listing[k] in listing;
      if listing[k].isDir {
        HandleDirAt(target, source, listing, results, k, cache0, store0, count0, files0);
      } else {
        FileFolderCached(listing, k, folderIdCache);
        HandleFileAt(target, source, listing, results, k, cache0, store0, count0, files0);
      }
    }

    /** `HandleReportAt` for a directory report. */
    method HandleDirAt(target: FolderId, source: string, listing: seq<Listed>, results: seq<UploadResult>, k: nat,
                       ghost cache0: map<string, FolderId>, ghost store0: Store, ghost count0: nat, ghost files0: seq<RemoteFile>)
      requires k < |listing| == |results| && listing[k].isDir
      requires Split(RelPath(source, listing[k].path), '/') == listing[k].parts
      requires Progress(cache0, store0, count0, files0, target, listing, results, k)
      modifies this`folderIdCache, this`store, this`files, this`fileCount
      ensures Progress(cache0, store0, count0, files0, target, listing, results, k + 1)
    {
      var v := listing[k];
      ListingStep(cache0, store0, target, listing, results, k);
      UploadsStep(cache0, store0, target, listing, results, k);
      ghost var before := folderIdCache;
      ghost var storeBefore := store;
      HandleListed(target, source, v, results[k]);
      ResolveCachesEveryPrefix(before, storeBefore, target, v.parts);
      assert before.Keys <= folderIdCache.Keys;
      DirsCachedStep(before, folderIdCache, listing, k);
    }

    /** `HandleReportAt` for a file report, whose folders are all cached. */
    method HandleFileAt(target: FolderId, source: string, listing: seq<Listed>, results: seq<UploadResult>, k: nat,
                        ghost cache0: map<string, FolderId>, ghost store0: Store, ghost count0: nat, ghost files0: seq<RemoteFile>)
      requires k < |listing| == |results| && !listing[k].isDir
      requires Split(RelPath(source, listing[k].path), '/') == listing[k].parts
      requires CachedChain(folderIdCache, listing[k].parts[..|listing[k].parts| - 1])
      requires Progress(cache0, store0, count0, files0, target, listing, results, k)
      modifies this`folderIdCache, this`store, this`files, this`fileCount
      ensures Progress(cache0, store0, count0, files0, target, listing, results, k + 1)
    {
      var v := listing[k];
      ghost var before, storeBefore, countBefore, filesBefore := folderIdCache, store, fileCount, files;
      assert Handled(before, storeBefore, countBefore, filesBefore, cache0, store0, count0, files0, target, listing, results, k);
      assert CachedChain(before, v.parts[..|v.parts| - 1]);
      HandleListed(target, source, v, results[k]);
      assert folderIdCache == before && store == storeBefore && fileCount == countBefore + 1;
      FileHandled(before, storeBefore, countBefore, filesBefore, files, cache0, store0, count0, files0, target, listing, results, k);
    }

    /** The handler applied to every report of a listing, in order.
        `results[k]` is what the store does with the k-th report if it is a
        file. */
    method HandleReports(target: FolderId, source: string, listing: seq<Listed>, results: seq<UploadResult>)
      requires Below(listing, []) && Preordered(listing, [])
      requires forall v :: v in listing ==> Split(RelPath(source, v.path), '/') == v.parts
      requires |results| == |listing|
      modifies this`folderIdCache, this`store, this`files, this`fileCount
      ensures fileCount == old(fileCount) + CountFiles(listing)
      ensures (folderIdCache, store) == DirsResolved(old(folderIdCache), old(store), target, listing)
      ensures DirsCached(folderIdCache, listing, |listing|)
      ensures files == old(files) + UploadsOf(old(folderIdCache), old(store), target, listing, results)
      ensures |files| == |old(files)| + CreatedFiles(listing, results) <= |old(files)| + CountFiles(listing)
    {
      ghost var cache0, store0, count0, files0 := folderIdCache, store, fileCount, files;
      for k := 0 to |listing|
        invariant Progress(cache0, store0, count0, files0, target, listing, results, k)
      {
        HandleReportAt(target, source, listing, results, k, cache0, store0, count0, files0);
      }
      HandledAll(folderIdCache, store, fileCount, files, cache0, store0, count0, files0, target, listing, results);
    }

    /** The handler's walk over the local tree: each directory is resolved
        when it is reported, each file is counted and uploaded. Because a
        directory is reported before anything inside it, the folder of every
        file is already cached when the file is uploaded: the uploads make no
        folder lookup or create, and the store ends as if only the
        directories had been resolved. */
    method Handler(target: FolderId, source: string, tree: seq<LocalEntry>, results: seq<UploadResult>)
      requires ValidEntries(tree)
      requires |results| == |ListLocal(source, [], tree)|
      modifies this`folderIdCache, this`store, this`files, this`fileCount
      ensures var listing := ListLocal(source, [], tree);
        && fileCount == old(fileCount) + CountFiles(listing)
        && (folderIdCache, store) == DirsResolved(old(folderIdCache), old(store), target, listing)
        && DirsCached(folderIdCache, listing, |listing|)
        && files == old(files) + UploadsOf(old(folderIdCache), old(store), target, listing, results)
        && |files| == |old(files)| + CreatedFiles(listing, results) <= |old(files)| + CountFiles(listing)
    {
      ListLocalPreorder(source, [], tree);
      ListedRelativeParts(source, tree);
      HandleReports(target, source, ListLocal(source, [], tree), results);
    }
  }
}

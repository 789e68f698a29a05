/**
 * The FileJump backend (backend/filejump/filejump.go): its file system and object types over
 * an abstract server, the directory cache as a map, and the decisions the backend itself takes
 * around each request.
 */
module FileJump {
  import opened Wrappers
  import opened Errors
  import opened Api
  import Strconv
  import Paths
  import Listing

  const StatusSuccess: string := "success"
  const OctetStream: string := "application/octet-stream"

  /** Body of `POST /file-entries/delete`. */
  datatype DeleteRequest = DeleteRequest(entryIds: seq<Strconv.Int64>, deleteForever: bool)

  /** Body of `POST /folders`; a `None` parent is sent as JSON null. */
  datatype CreateDirRequest = CreateDirRequest(name: string, parentId: Option<Strconv.Int64>)

  datatype CreateDirResponse = CreateDirResponse(folderId: Strconv.Int64, status: string)

  /** The multipart form of `POST /uploads`: the file part and the optional parentId field. */
  datatype UploadRequest = UploadRequest(fileName: string, content: seq<bv8>, parentId: Option<string>)

  datatype UploadedEntry = UploadedEntry(id: Strconv.Int64, fileSize: Strconv.Int64, mime: string, createdAt: Time)

  datatype UploadResponse = UploadResponse(status: string, fileEntry: UploadedEntry)

  /**
   * The remote API, one function per endpoint the backend calls. Each answer is the outcome
   * after the pacer has retried as shouldRetry allowed.
   */
  datatype Server = Server(
    listing: (string, Option<nat>) -> Result<FileEntries, Error>,
    delete: DeleteRequest -> Result<string, Error>,
    createFolder: CreateDirRequest -> Result<CreateDirResponse, Error>,
    upload: UploadRequest -> Result<UploadResponse, Error>,
    download: string -> Result<seq<bv8>, Error>)

  /** The configured name encoder. */
  datatype Encoder = Encoder(toStandard: string -> string, fromStandard: string -> string)

  /** A request the backend sent, in the order it sent them. */
  datatype Call =
    | ListCall(folderId: string, page: Option<nat>)
    | DeleteCall(deleteRequest: DeleteRequest)
    | CreateFolderCall(createRequest: CreateDirRequest)
    | UploadCall(uploadRequest: UploadRequest)
    | DownloadCall(downloadPath: string)

  /** The listing endpoint for one folder. */
  function Pages(server: Server, folderId: string): Listing.Fetch
  {
    page => server.listing(folderId, page)
  }

  /** The listing of the folder that holds path's leaf ends, when that folder is cached. */
  ghost predicate LeafListingEnds(cache: map<string, string>, server: Server, toStandard: string -> string,
                                  path: string)
  {
    var split := Paths.SplitPath(path);
    split.directory in cache ==>
      Listing.ListingEnds(Pages(server, cache[split.directory]), toStandard, false, true, NameMatch(split.leaf))
  }

  /** The listing requests for one folder, as calls. */
  function ListCalls(folderId: string, pages: seq<Option<nat>>): seq<Call>
  {
    seq(|pages|, i requires 0 <= i < |pages| => ListCall(folderId, pages[i]))
  }

  /** The fields of an Object that describe the remote file. */
  datatype ObjectState = ObjectState(hasMetaData: bool, size: Strconv.Int64, modTime: Time, id: string, mimeType: string)

  /** A new Object before any metadata is known. */
  const Blank: ObjectState := ObjectState(false, 0, ZeroTime, "", "")

  /**
   * setMetaData's effect: folders are refused with ErrorIsDir and change nothing; any other
   * item fills in size, modification time and identifier, and leaves the MIME type alone.
   */
  function WithInfo(s: ObjectState, info: Item): (r: Result<ObjectState, Error>)
    ensures r.Failure? <==> info.IsFolder()
    ensures r.Failure? ==> r.error == IsDir
    ensures r.Success? ==> r.value.hasMetaData && r.value.size == info.fileSize && r.value.modTime == info.ModTime()
    ensures r.Success? ==> r.value.id == info.GetID()
    ensures r.Success? ==> r.value.mimeType == s.mimeType
  {
    if info.itemType == ItemTypeFolder then Failure(IsDir)
    else Success(s.(hasMetaData := true, size := info.fileSize, modTime := info.ModTime(), id := info.GetID()))
  }

  /** setMetaData gives the same state whatever the object held before, apart from the MIME type. */
  lemma WithInfoForgetsPast(s: ObjectState, t: ObjectState, info: Item)
    requires s.mimeType == t.mimeType
    ensures WithInfo(s, info) == WithInfo(t, info)
  {
  }

  /** A directory listing entry: a directory with its identifier, or a file object with its metadata. */
  datatype Entry =
    | DirEntry(remote: string, dirModTime: Time, dirId: string)
    | ObjectEntry(remote: string, meta: ObjectState)

  /** The entry List makes of one listed item of directory dir. */
  function EntryOf(dir: string, info: Item): (e: Entry)
    ensures e.remote == Paths.Join(dir, info.name)
    ensures e.DirEntry? <==> info.IsFolder()
    ensures e.DirEntry? ==> e.dirModTime == info.ModTime() && e.dirId == info.GetID()
    ensures e.ObjectEntry? ==> Success(e.meta) == WithInfo(Blank, info)
  {
    var remote := Paths.Join(dir, info.name);
    if info.itemType == ItemTypeFolder then DirEntry(remote, info.ModTime(), info.GetID())
    else ObjectEntry(remote, WithInfo(Blank, info).value)
  }

  /** List's entries for the listed items of dir, in listing order. */
  function EntriesOf(dir: string, items: seq<Item>): (r: seq<Entry>)
    ensures |r| == |items|
    decreases |items|
  {
    if items == [] then [] else EntriesOf(dir, items[..|items| - 1]) + [EntryOf(dir, items[|items| - 1])]
  }

  /** The entry at index i is the one made of the item at index i. */
  lemma {:induction false} EntriesOfAt(dir: string, items: seq<Item>, i: nat)
    requires i < |items|
    ensures EntriesOf(dir, items)[i] == EntryOf(dir, items[i])
    decreases |items|
  {
    var init := items[..|items| - 1];
    if i < |init| {
      EntriesOfAt(dir, init, i);
      assert init[i] == items[i];
    }
  }

  /** The directory cache after List has put each listed folder of dir, in listing order. */
  function PutFolders(cache: map<string, string>, dir: string, items: seq<Item>): map<string, string>
    decreases |items|
  {
    if items == [] then cache
    else
      var c := PutFolders(cache, dir, items[..|items| - 1]);
      var info := items[|items| - 1];
      if info.IsFolder() then c[Paths.Join(dir, info.name) := info.GetID()] else c
  }

  /** items[i] is a listed folder whose path below dir is k. */
  predicate FolderAt(dir: string, items: seq<Item>, i: int, k: string)
  {
    0 <= i < |items| && items[i].IsFolder() && Paths.Join(dir, items[i].name) == k
  }

  /** The keys after the puts: the old keys and one per listed folder. */
  lemma {:induction false} PutFoldersKeys(cache: map<string, string>, dir: string, items: seq<Item>, k: string)
    ensures k in PutFolders(cache, dir, items) <==> k in cache || exists i :: FolderAt(dir, items, i, k)
    decreases |items|
  {
    if items != [] {
      var init := items[..|items| - 1];
      PutFoldersKeys(cache, dir, init, k);
      assert forall i :: FolderAt(dir, init, i, k) <==> i < |items| - 1 && FolderAt(dir, items, i, k);
      assert (exists i :: FolderAt(dir, items, i, k))
         <==> (exists i :: FolderAt(dir, init, i, k)) || FolderAt(dir, items, |items| - 1, k);
    }
  }

  /** A key no folder was listed under keeps its old identifier. */
  lemma {:induction false} PutFoldersKept(cache: map<string, string>, dir: string, items: seq<Item>, k: string)
    requires k in cache
    requires forall i :: !FolderAt(dir, items, i, k)
    ensures k in PutFolders(cache, dir, items) && PutFolders(cache, dir, items)[k] == cache[k]
    decreases |items|
  {
    if items != [] {
      var init := items[..|items| - 1];
      assert forall i :: FolderAt(dir, init, i, k) ==> FolderAt(dir, items, i, k);
      assert !FolderAt(dir, items, |items| - 1, k);
      PutFoldersKept(cache, dir, init, k);
    }
  }

  /** The key of a listed folder holds the identifier of the last listed folder with that path. */
  lemma {:induction false} PutFoldersLast(cache: map<string, string>, dir: string, items: seq<Item>, k: string)
    requires exists i :: FolderAt(dir, items, i, k)
    ensures var r := PutFolders(cache, dir, items);
      k in r && exists i :: FolderAt(dir, items, i, k) && r[k] == items[i].GetID() && forall j :: i < j ==> !FolderAt(dir, items, j, k)
    decreases |items|
  {
    var init := items[..|items| - 1];
    var last := |items| - 1;
    var r := PutFolders(cache, dir, items);
    if FolderAt(dir, items, last, k) {
      assert r[k] == items[last].GetID();
    } else {
      var i :| FolderAt(dir, items, i, k);
      assert FolderAt(dir, init, i, k);
      PutFoldersLast(cache, dir, init, k);
      assert r[k] == PutFolders(cache, dir, init)[k];
      var i0 :| FolderAt(dir, init, i0, k) && PutFolders(cache, dir, init)[k] == init[i0].GetID()
        && forall j :: i0 < j ==> !FolderAt(dir, init, j, k);
      assert r[k] == items[i0].GetID();
      assert forall j :: i0 < j ==> !FolderAt(dir, items, j, k) by {
        forall j | i0 < j ensures !FolderAt(dir, items, j, k) {
          if j < last {
            assert !FolderAt(dir, init, j, k);
          }
        }
      }
    }
  }

  /**
   * What the cache holds after the puts: the old keys and one key per listed folder; a key
   * no folder was listed under keeps its old identifier, and the key of a listed folder
   * holds the identifier of the last listed folder with that path.
   */
  lemma PutFoldersLookup(cache: map<string, string>, dir: string, items: seq<Item>, k: string)
    ensures var r := PutFolders(cache, dir, items);
      && (k in r <==> k in cache || exists i :: FolderAt(dir, items, i, k))
      && ((forall i :: !FolderAt(dir, items, i, k)) && k in cache ==> r[k] == cache[k])
      && ((exists i :: FolderAt(dir, items, i, k)) ==>
            exists i :: FolderAt(dir, items, i, k) && r[k] == items[i].GetID()
              && forall j :: i < j ==> !FolderAt(dir, items, j, k))
  {
    PutFoldersKeys(cache, dir, items, k);
    if k in cache && forall i :: !FolderAt(dir, items, i, k) {
      PutFoldersKept(cache, dir, items, k);
    }
    if exists i :: FolderAt(dir, items, i, k) {
      PutFoldersLast(cache, dir, items, k);
    }
  }

  /**
   * The directory cache's FlushDir: the directory and every path below it lose their entries;
   * flushing "" resets the cache to the root's identifier alone (ResetRoot).
   */
  function FlushDir(cache: map<string, string>, rootID: string, dir: string): (r: map<string, string>)
  {
    if dir == "" then map["" := rootID]
    else map k | k in cache && k != dir && !Paths.HasPrefix(k, dir + "/") :: cache[k]
  }

  /**
   * After a flush of a directory its subtree is gone and everything else is kept; a flush of ""
   * keeps only the root; flushing again changes nothing.
   */
  lemma FlushDirProperties(cache: map<string, string>, rootID: string, dir: string, k: string)
    ensures var r := FlushDir(cache, rootID, dir);
      dir == "" ==> "" in r && r[""] == rootID && (k in r <==> k == "")
    ensures var r := FlushDir(cache, rootID, dir);
      dir != "" ==> (k in r <==> k in cache && k != dir && !Paths.HasPrefix(k, dir + "/"))
    ensures var r := FlushDir(cache, rootID, dir);
      dir != "" && k in r ==> r[k] == cache[k]
    ensures FlushDir(FlushDir(cache, rootID, dir), rootID, dir) == FlushDir(cache, rootID, dir)
  {
  }

  /** Flushing a directory also flushes each path below it. */
  lemma FlushDirRemovesSubtree(cache: map<string, string>, rootID: string, dir: string, sub: string)
    requires dir != ""
    ensures Paths.Join(dir, sub) !in FlushDir(cache, rootID, dir)
  {
    if sub != "" {
      var k := dir + "/" + sub;
      assert k[..|dir + "/"|] == dir + "/";
    }
  }

  /** The parent the `POST /folders` request names: null for "", the parsed identifier otherwise. */
  function ParentIdFor(pathID: string): (r: Option<Strconv.Int64>)
    ensures r.None? <==> pathID == ""
    ensures r.Some? ==> r.value == Strconv.ParseInt(pathID).value
  {
    if pathID != "" then Some(Strconv.ParseInt(pathID).value) else None
  }

  /** A folder identifier the backend rendered with Itoa comes back as that folder. */
  lemma ParentIdOfFormatted(n: Strconv.Int64)
    ensures ParentIdFor(Strconv.FormatInt(n)) == Some(n)
  {
    Strconv.ParseFormatInt(n);
  }

  /** A non-numeric parent is not refused: its parse error is dropped and folder 0 is named. */
  lemma ParentIdOfNonNumeric(pathID: string)
    requires pathID != "" && Strconv.ParseInt(pathID).status == Strconv.SyntaxError
    ensures ParentIdFor(pathID) == Some(0)
  {
  }

  /**
   * getExtensionAndMime, with mime.TypeByExtension as a parameter: a name without extension is
   * ("bin", application/octet-stream); otherwise the extension without its dot and the type the
   * lookup gives, falling back to application/octet-stream.
   */
  function GetExtensionAndMime(filename: string, typeByExtension: string -> string): (r: (string, string))
    ensures Paths.Ext(filename) == "" ==> r == ("bin", OctetStream)
    ensures Paths.Ext(filename) != "" ==> "." + r.0 == Paths.Ext(filename)
    ensures Paths.Ext(filename) != "" ==>
      r.1 == (if typeByExtension(Paths.Ext(filename)) == "" then OctetStream else typeByExtension(Paths.Ext(filename)))
    ensures '.' !in r.0 && '/' !in r.0
    ensures r.1 != ""
  {
    var ext := Paths.Ext(filename);
    if ext == "" then ("bin", OctetStream)
    else
      var extension := ext[1..];
      assert forall k :: 0 <= k < |extension| ==> extension[k] == ext[k + 1];
      var mimeType := typeByExtension(ext);
      (extension, if mimeType == "" then OctetStream else mimeType)
  }

  /** The callback List gives listAll: stop only when making the object failed. */
  function ListStops(): Item -> bool
  {
    (info: Item) => !info.IsFolder() && WithInfo(Blank, info).Failure?
  }

  /** FindLeaf's callback: a case-insensitive name match. */
  function FoldMatch(leaf: string): Item -> bool
  {
    (info: Item) => Paths.EqualFold(info.name, leaf)
  }

  /** readMetaDataForPath's callback: an exact name match. */
  function NameMatch(leaf: string): Item -> bool
  {
    (info: Item) => info.name == leaf
  }

  /** List's callback never stops the listing: an object made from a listed file never fails. */
  lemma ListNeverStops(info: Item)
    ensures !ListStops()(info)
  {
  }

  function Last(items: seq<Item>): Item
    requires items != []
  {
    items[|items| - 1]
  }

  /**
   * readMetaDataForPath: a missing directory is ErrorObjectNotFound; otherwise the first file
   * named leaf in the directory's listing, ErrorObjectNotFound when there is none, or the
   * listing's error.
   */
  ghost function MetaDataForPath(cache: map<string, string>, server: Server, toStandard: string -> string,
                                 path: string): Result<Item, Error>
    requires LeafListingEnds(cache, server, toStandard, path)
  {
    var split := Paths.SplitPath(path);
    if split.directory !in cache then Failure(ObjectNotFound)
    else
      var fetch := Pages(server, cache[split.directory]);
      var w := Listing.Listing(fetch, toStandard, false, true, NameMatch(split.leaf));
      Listing.ListingCharacterised(fetch, toStandard, false, true, NameMatch(split.leaf));
      if w.err.Some? then Failure(w.err.value)
      else if !w.found then Failure(ObjectNotFound)
      else Success(Last(w.handed))
  }

  /** The requests readMetaDataForPath sends: the listing of the leaf's folder, nothing when that folder is not cached. */
  ghost function MetaDataRequests(cache: map<string, string>, server: Server, toStandard: string -> string,
                                  path: string): seq<Call>
    requires LeafListingEnds(cache, server, toStandard, path)
  {
    var split := Paths.SplitPath(path);
    if split.directory !in cache then []
    else
      ListCalls(cache[split.directory],
                Listing.Listing(Pages(server, cache[split.directory]), toStandard, false, true, NameMatch(split.leaf)).requests)
  }

  /**
   * What readMetaDataForPath finds is a file of the directory named exactly leaf, taken from a
   * fetched page, and the first such file in listing order; and when no fetched page holds such a file, the answer is ErrorObjectNotFound
   * or the listing's error.
   */
  lemma MetaDataForPathFinds(cache: map<string, string>, server: Server, toStandard: string -> string, path: string)
    requires LeafListingEnds(cache, server, toStandard, path)
    ensures var split := Paths.SplitPath(path);
      var r := MetaDataForPath(cache, server, toStandard, path);
      && (split.directory !in cache ==> r == Failure(ObjectNotFound))
      && (r.Success? ==> !r.value.IsFolder() && r.value.name == split.leaf)
      && (r.Success? ==>
            (split.directory in cache &&
             var fetch := Pages(server, cache[split.directory]);
             var w := Listing.Listing(fetch, toStandard, false, true, NameMatch(split.leaf));
             var all := Listing.AllSurvivors(fetch, toStandard, false, true, w.requests);
             && r.value in all
             && 0 < |w.handed| <= |all| && r.value == all[|w.handed| - 1]
             && forall j :: 0 <= j < |w.handed| - 1 ==> all[j].name != split.leaf))
  {
    var split := Paths.SplitPath(path);
    if split.directory in cache {
      var fetch := Pages(server, cache[split.directory]);
      var fn := NameMatch(split.leaf);
      var w := Listing.Listing(fetch, toStandard, false, true, fn);
      Listing.ListingCharacterised(fetch, toStandard, false, true, fn);
      var all := Listing.AllSurvivors(fetch, toStandard, false, true, w.requests);
      Listing.AllSurvivorsFilter(fetch, toStandard, false, true, w.requests);
      if w.err.None? && w.found {
        var x := Last(w.handed);
        Listing.TakeThroughFirst(all, fn);
        assert x == all[|w.handed| - 1];
        assert x in all;
        assert Listing.Selected(x, false, true);
        assert fn(x);
        assert x.name == split.leaf;
        forall j | 0 <= j < |w.handed| - 1
          ensures all[j].name != split.leaf
        {
          assert !fn(all[j]);
        }
      }
    }
  }

  /**
   * When no fetched page holds a file whose decoded name is leaf, readMetaDataForPath finds nothing:
   * ErrorObjectNotFound when the listing had no error, the listing's error otherwise.
   */
  lemma MetaDataForPathMisses(cache: map<string, string>, server: Server, toStandard: string -> string, path: string)
    requires LeafListingEnds(cache, server, toStandard, path)
    requires var split := Paths.SplitPath(path);
      split.directory in cache &&
      var fetch := Pages(server, cache[split.directory]);
      var w := Listing.Listing(fetch, toStandard, false, true, NameMatch(split.leaf));
      forall k, i ::
        (0 <= k < |w.requests| && fetch(w.requests[k]).Success? && 0 <= i < |fetch(w.requests[k]).value.data|) ==>
        fetch(w.requests[k]).value.data[i].IsFolder() || toStandard(fetch(w.requests[k]).value.data[i].name) != split.leaf
    ensures MetaDataForPath(cache, server, toStandard, path).Failure?
    ensures var split := Paths.SplitPath(path);
      var w := Listing.Listing(Pages(server, cache[split.directory]), toStandard, false, true, NameMatch(split.leaf));
      && (w.err.None? ==> MetaDataForPath(cache, server, toStandard, path) == Failure(ObjectNotFound))
      && (w.err.Some? ==> MetaDataForPath(cache, server, toStandard, path) == Failure(w.err.value))
  {
    var split := Paths.SplitPath(path);
    var fetch := Pages(server, cache[split.directory]);
    var fn := NameMatch(split.leaf);
    var w := Listing.Listing(fetch, toStandard, false, true, fn);
    Listing.ListingCharacterised(fetch, toStandard, false, true, fn);
    var all := Listing.AllSurvivors(fetch, toStandard, false, true, w.requests);
    Listing.AllSurvivorsFilter(fetch, toStandard, false, true, w.requests);
    if w.found {
      var x := Last(w.handed);
      assert x == all[|w.handed| - 1];
      assert x in all;
      AllSurvivorsOrigin(fetch, toStandard, false, true, w.requests, x);
    }
  }

  /**
   * A file of the leaf's folder that is on a fetched page and whose decoded name is exactly leaf
   * is found: readMetaDataForPath then succeeds with a file of that name.
   */
  lemma MetaDataForPathPresentIsFound(cache: map<string, string>, server: Server, toStandard: string -> string,
                                      path: string, k: nat, i: nat)
    requires LeafListingEnds(cache, server, toStandard, path)
    requires var split := Paths.SplitPath(path);
      split.directory in cache &&
      var fetch := Pages(server, cache[split.directory]);
      var w := Listing.Listing(fetch, toStandard, false, true, NameMatch(split.leaf));
      && k < |w.requests| && fetch(w.requests[k]).Success? && i < |fetch(w.requests[k]).value.data|
      && !fetch(w.requests[k]).value.data[i].IsFolder()
      && toStandard(fetch(w.requests[k]).value.data[i].name) == split.leaf
    ensures var r := MetaDataForPath(cache, server, toStandard, path);
      r.Success? && !r.value.IsFolder() && r.value.name == Paths.SplitPath(path).leaf
  {
    var split := Paths.SplitPath(path);
    var fetch := Pages(server, cache[split.directory]);
    var fn := NameMatch(split.leaf);
    var w := Listing.Listing(fetch, toStandard, false, true, fn);
    Listing.ListingCharacterised(fetch, toStandard, false, true, fn);
    var all := Listing.AllSurvivors(fetch, toStandard, false, true, w.requests);
    Listing.AllSurvivorsFilter(fetch, toStandard, false, true, w.requests);
    var x := Listing.Decoded(fetch(w.requests[k]).value.data[i], toStandard);
    assert x in all;
    var j :| 0 <= j < |all| && all[j] == x;
    assert fn(all[j]);
    assert Listing.Stops(all, fn);
    MetaDataForPathFinds(cache, server, toStandard, path);
  }

  /** Every item in AllSurvivors is the decoded form of an item on one of the fetched pages. */
  lemma {:induction false} AllSurvivorsOrigin(fetch: Listing.Fetch, toStandard: string -> string, directoriesOnly: bool,
                                              filesOnly: bool, requests: seq<Option<nat>>, x: Item)
    requires x in Listing.AllSurvivors(fetch, toStandard, directoriesOnly, filesOnly, requests)
    ensures exists k, i ::
      && 0 <= k < |requests| && fetch(requests[k]).Success? && 0 <= i < |fetch(requests[k]).value.data|
      && x == Listing.Decoded(fetch(requests[k]).value.data[i], toStandard)
    decreases |requests|
  {
    var rest := requests[1..];
    var head := match fetch(requests[0])
      case Failure(_) => []
      case Success(p) => Listing.Survivors(p.data, toStandard, directoriesOnly, filesOnly);
    assert Listing.AllSurvivors(fetch, toStandard, directoriesOnly, filesOnly, requests)
        == head + Listing.AllSurvivors(fetch, toStandard, directoriesOnly, filesOnly, rest);
    if x in head {
      var i := SurvivorOrigin(fetch(requests[0]).value.data, toStandard, directoriesOnly, filesOnly, x);
      assert x == Listing.Decoded(fetch(requests[0]).value.data[i], toStandard);
    } else {
      AllSurvivorsOrigin(fetch, toStandard, directoriesOnly, filesOnly, rest, x);
      var k, i :| 0 <= k < |rest| && fetch(rest[k]).Success? &&
        0 <= i < |fetch(rest[k]).value.data| && x == Listing.Decoded(fetch(rest[k]).value.data[i], toStandard);
      assert rest[k] == requests[k + 1];
    }
  }

  /** The index on the page of an item Survivors kept. */
  lemma {:induction false} SurvivorOrigin(items: seq<Item>, toStandard: string -> string, directoriesOnly: bool,
                                          filesOnly: bool, x: Item) returns (i: nat)
    requires x in Listing.Survivors(items, toStandard, directoriesOnly, filesOnly)
    ensures i < |items| && x == Listing.Decoded(items[i], toStandard)
    decreases |items|
  {
    var init := items[..|items| - 1];
    if x in Listing.Survivors(init, toStandard, directoriesOnly, filesOnly) {
      i := SurvivorOrigin(init, toStandard, directoriesOnly, filesOnly, x);
      assert init[i] == items[i];
    } else {
      i := |items| - 1;
    }
  }

  /** FindLeaf's listing, when it stops: the first listed folder whose decoded name equals leaf up to case. */
  lemma FindLeafFound(server: Server, toStandard: string -> string, pathID: string, leaf: string)
    requires Listing.ListingEnds(Pages(server, pathID), toStandard, true, false, FoldMatch(leaf))
    ensures var fetch := Pages(server, pathID);
      var w := Listing.Listing(fetch, toStandard, true, false, FoldMatch(leaf));
      var all := Listing.AllSurvivors(fetch, toStandard, true, false, w.requests);
      w.found ==>
        && w.err.None? && w.handed != [] && Last(w.handed).IsFolder()
        && Paths.EqualFold(Last(w.handed).name, leaf)
        && Last(w.handed) in all
        && |w.handed| <= |all| && w.handed == all[..|w.handed|]
        && forall j :: 0 <= j < |w.handed| - 1 ==> !Paths.EqualFold(all[j].name, leaf)
  {
    var fetch := Pages(server, pathID);
    var fn := FoldMatch(leaf);
    var w := Listing.Listing(fetch, toStandard, true, false, fn);
    Listing.ListingCharacterised(fetch, toStandard, true, false, fn);
    var all := Listing.AllSurvivors(fetch, toStandard, true, false, w.requests);
    if w.found {
      Listing.AllSurvivorsFilter(fetch, toStandard, true, false, w.requests);
      var x := Last(w.handed);
      Listing.TakeThroughFirst(all, fn);
      assert x == all[|w.handed| - 1];
      assert Listing.Selected(x, true, false);
      assert fn(x);
      forall j | 0 <= j < |w.handed| - 1
        ensures !Paths.EqualFold(all[j].name, leaf)
      {
        assert !fn(all[j]);
      }
    }
  }

  /**
   * FindLeaf's listing: when it stops, the last item handed over is a listed folder whose
   * decoded name equals leaf up to case, and no folder listed before it has such a name; when
   * it ends without error and without stopping, no folder on any fetched page has such a name.
   */
  lemma FindLeafCharacterised(server: Server, toStandard: string -> string, pathID: string, leaf: string)
    requires Listing.ListingEnds(Pages(server, pathID), toStandard, true, false, FoldMatch(leaf))
    ensures var fetch := Pages(server, pathID);
      var w := Listing.Listing(fetch, toStandard, true, false, FoldMatch(leaf));
      && (w.found ==> w.err.None? && w.handed != [] && Last(w.handed).IsFolder())
      && (w.found ==> Paths.EqualFold(Last(w.handed).name, leaf))
      && (w.found ==> Last(w.handed) in Listing.AllSurvivors(fetch, toStandard, true, false, w.requests))
      && (w.found ==>
            var all := Listing.AllSurvivors(fetch, toStandard, true, false, w.requests);
            && |w.handed| <= |all| && w.handed == all[..|w.handed|]
            && forall j :: 0 <= j < |w.handed| - 1 ==> !Paths.EqualFold(all[j].name, leaf))
      && (!w.found && w.err.None? ==>
            forall k, i ::
              (0 <= k < |w.requests| && fetch(w.requests[k]).Success? && 0 <= i < |fetch(w.requests[k]).value.data| &&
               fetch(w.requests[k]).value.data[i].IsFolder()) ==>
              !Paths.EqualFold(toStandard(fetch(w.requests[k]).value.data[i].name), leaf))
  {
    var fetch := Pages(server, pathID);
    var fn := FoldMatch(leaf);
    var w := Listing.Listing(fetch, toStandard, true, false, fn);
    FindLeafFound(server, toStandard, pathID, leaf);
    if !w.found && w.err.None? {
      Listing.ListingCharacterised(fetch, toStandard, true, false, fn);
      var all := Listing.AllSurvivors(fetch, toStandard, true, false, w.requests);
      Listing.AllSurvivorsFilter(fetch, toStandard, true, false, w.requests);
      forall k, i |
        (0 <= k < |w.requests| && fetch(w.requests[k]).Success? && 0 <= i < |fetch(w.requests[k]).value.data| &&
         fetch(w.requests[k]).value.data[i].IsFolder())
        ensures !Paths.EqualFold(toStandard(fetch(w.requests[k]).value.data[i].name), leaf)
      {
        var x := Listing.Decoded(fetch(w.requests[k]).value.data[i], toStandard);
        assert x in all;
        var j :| 0 <= j < |all| && all[j] == x;
        assert !fn(all[j]);
      }
    }
  }

  /**
   * List's listing never stops early: every item of every fetched page reaches the callback,
   * decoded and in order, and without an error the last page fetched has no next page.
   */
  lemma ListSeesEverything(server: Server, toStandard: string -> string, directoryID: string)
    requires Listing.ListingEnds(Pages(server, directoryID), toStandard, false, false, ListStops())
    ensures var fetch := Pages(server, directoryID);
      var w := Listing.Listing(fetch, toStandard, false, false, ListStops());
      && !w.found
      && w.handed == Listing.AllSurvivors(fetch, toStandard, false, false, w.requests)
      && (forall k, i ::
            (0 <= k < |w.requests| && fetch(w.requests[k]).Success? && 0 <= i < |fetch(w.requests[k]).value.data|) ==>
            Listing.Decoded(fetch(w.requests[k]).value.data[i], toStandard) in w.handed)
      && (w.err.None? ==> fetch(w.requests[|w.requests| - 1]).Success? && fetch(w.requests[|w.requests| - 1]).value.nextPage.None?)
  {
    var fetch := Pages(server, directoryID);
    var fn := ListStops();
    var w := Listing.Listing(fetch, toStandard, false, false, fn);
    Listing.ListingCharacterised(fetch, toStandard, false, false, fn);
    var all := Listing.AllSurvivors(fetch, toStandard, false, false, w.requests);
    Listing.AllSurvivorsFilter(fetch, toStandard, false, false, w.requests);
  }

  /** One more listed item: its put and its entry come after those of the items before it. */
  lemma PutListedStep(cache: map<string, string>, dir: string, items: seq<Item>, i: nat)
    requires i < |items|
    ensures var before := PutFolders(cache, dir, items[..i]);
      PutFolders(cache, dir, items[..i + 1])
        == if items[i].IsFolder() then before[Paths.Join(dir, items[i].name) := items[i].GetID()] else before
    ensures EntriesOf(dir, items[..i + 1]) == EntriesOf(dir, items[..i]) + [EntryOf(dir, items[i])]
  {
    assert items[..i + 1][..i] == items[..i];
  }

  /**
   * The callback of List applied to each listed item of dir in turn: a folder is put into
   * the cache and becomes a directory entry, anything else becomes an object entry.
   */
  method ListedInto(cache: map<string, string>, dir: string, handed: seq<Item>)
    returns (newCache: map<string, string>, entries: seq<Entry>)
    ensures newCache == PutFolders(cache, dir, handed)
    ensures entries == EntriesOf(dir, handed)
  {
    newCache, entries := cache, [];
    var i := 0;
    while i < |handed|
      invariant 0 <= i <= |handed|
      invariant newCache == PutFolders(cache, dir, handed[..i])
      invariant entries == EntriesOf(dir, handed[..i])
    {
      var info := handed[i];
      var remote := Paths.Join(dir, info.name);
      PutListedStep(cache, dir, handed, i);
      if info.itemType == ItemTypeFolder {
        // cache the directory ID for later lookups
        newCache := newCache[remote := info.GetID()];
      }
      // a directory entry for a folder; for anything else newObjectWithInfo, whose setMetaData
      // accepts every item that is not a folder, so the callback's iErr stays nil
      entries := entries + [EntryOf(dir, info)];
      i := i + 1;
    }
    assert handed[..i] == handed;
  }

  /** The file system: its root, the server, the encoder, the directory cache and the requests sent so far. */
  class Fs {
    const root: string
    const server: Server
    const enc: Encoder
    const rootID: string
    var dirCache: map<string, string>
    var log: seq<Call>

    /** A file system whose cache knows only the root's identifier. */
    constructor (root: string, rootID: string, server: Server, enc: Encoder)
      ensures this.root == root && this.rootID == rootID && this.server == server && this.enc == enc
      ensures dirCache == map["" := rootID] && log == []
    {
      this.root := root;
      this.rootID := rootID;
      this.server := server;
      this.enc := enc;
      dirCache := map["" := rootID];
      log := [];
    }

    /**
     * List: the entries of dir, one per listed item in listing order, with each listed folder
     * put into the cache; a directory missing from the cache is ErrorDirNotFound, and a listing
     * error gives no entries but keeps the folders already cached.
     */
    method List(dir: string) returns (entries: seq<Entry>, err: Option<Error>)
      requires dir in dirCache ==> Listing.ListingEnds(Pages(server, dirCache[dir]), enc.toStandard, false, false, ListStops())
      modifies this
      ensures dir !in old(dirCache) ==>
        entries == [] && err == Some(DirNotFound) && dirCache == old(dirCache) && log == old(log)
      ensures dir in old(dirCache) ==>
        var id := old(dirCache)[dir];
        var w := Listing.Listing(Pages(server, id), enc.toStandard, false, false, ListStops());
        && dirCache == PutFolders(old(dirCache), dir, w.handed)
        && log == old(log) + ListCalls(id, w.requests)
        && err == w.err
        && entries == (if w.err.Some? then [] else EntriesOf(dir, w.handed))
    {
      if dir !in dirCache {
        return [], Some(DirNotFound);
      }
      var directoryID := dirCache[dir];
      var found, handed, requests, listErr :=
        Listing.ListAllOf(Pages(server, directoryID), enc.toStandard, false, false, ListStops());
      log := log + ListCalls(directoryID, requests);
      entries := PutListed(dir, handed);
      if listErr.Some? {
        return [], listErr;
      }
      err := None;
    }

    /**
     * The callback of List applied to each listed item of dir in turn: a folder is put into
     * the cache and becomes a directory entry, anything else becomes an object entry.
     */
    method PutListed(dir: string, handed: seq<Item>) returns (entries: seq<Entry>)
      modifies this`dirCache
      ensures dirCache == PutFolders(old(dirCache), dir, handed)
      ensures entries == EntriesOf(dir, handed)
    {
      var cache;
      cache, entries := ListedInto(dirCache, dir, handed);
      dirCache := cache;
    }

    /**
     * FindLeaf: lists only the folders of pathID and answers the identifier of the first
     * whose name equals leaf up to case; "" and not found when there is none.
     */
    method FindLeaf(pathID: string, leaf: string) returns (pathIDOut: string, found: bool, err: Option<Error>)
      requires Listing.ListingEnds(Pages(server, pathID), enc.toStandard, true, false, FoldMatch(leaf))
      modifies this`log
      ensures var w := Listing.Listing(Pages(server, pathID), enc.toStandard, true, false, FoldMatch(leaf));
        && found == w.found && err == w.err
        && (found ==> w.handed != [] && pathIDOut == Last(w.handed).GetID())
        && (!found ==> pathIDOut == "")
        && log == old(log) + ListCalls(pathID, w.requests)
    {
      var handed, requests;
      var fetch := Pages(server, pathID);
      found, handed, requests, err := Listing.ListAllOf(fetch, enc.toStandard, true, false, FoldMatch(leaf));
      Listing.ListingCharacterised(fetch, enc.toStandard, true, false, FoldMatch(leaf));
      log := log + ListCalls(pathID, requests);
      pathIDOut := if found then handed[|handed| - 1].GetID() else "";
    }

    /** readMetaDataForPath, proved against MetaDataForPath; only listing requests are sent. */
    method ReadMetaDataForPath(path: string) returns (info: Result<Item, Error>)
      requires LeafListingEnds(dirCache, server, enc.toStandard, path)
      modifies this`log
      ensures info == MetaDataForPath(dirCache, server, enc.toStandard, path)
      ensures log == old(log) + MetaDataRequests(dirCache, server, enc.toStandard, path)
    {
      var split := Paths.SplitPath(path);
      if split.directory !in dirCache {
        return Failure(ObjectNotFound);
      }
      var directoryID := dirCache[split.directory];
      var fetch := Pages(server, directoryID);
      var found, handed, requests, err :=
        Listing.ListAllOf(fetch, enc.toStandard, false, true, NameMatch(split.leaf));
      log := log + ListCalls(directoryID, requests);
      if err.Some? {
        return Failure(err.value);
      }
      if !found {
        return Failure(ObjectNotFound);
      }
      info := Success(handed[|handed| - 1]);
    }

    /**
     * CreateDir: asks for a folder named by the encoder under pathID (a null parent for "") and
     * answers the new folder's identifier in decimal; the response status is not consulted.
     */
    method CreateDir(pathID: string, leaf: string) returns (newID: string, err: Option<Error>)
      modifies this`log
      ensures var request := CreateDirRequest(enc.fromStandard(leaf), ParentIdFor(pathID));
        && log == old(log) + [CreateFolderCall(request)]
        && match server.createFolder(request)
           case Failure(e) => newID == "" && err == Some(e)
           case Success(response) =>
             && err.None? && newID == Strconv.FormatInt(response.folderId)
             && Strconv.ParseInt(newID) == Strconv.Parsed(response.folderId, Strconv.Ok)
    {
      var request := CreateDirRequest(enc.fromStandard(leaf), ParentIdFor(pathID));
      log := log + [CreateFolderCall(request)];
      var result := server.createFolder(request);
      if result.Failure? {
        return "", Some(result.error);
      }
      Strconv.ParseFormatInt(result.value.folderId);
      newID := Strconv.FormatInt(result.value.folderId);
      err := None;
    }

    /**
     * purgeCheck (and Rmdir through it): refuses the root, needs dir in the cache, deletes the
     * folder for good, and flushes dir from the cache only on a "success" status.
     * The `check` flag is accepted and not read.
     */
    method PurgeCheck(dir: string, check: bool) returns (err: Option<Error>)
      modifies this
      ensures Paths.Join(root, dir) == "" ==>
        err == Some(Message("can't purge root directory")) && dirCache == old(dirCache) && log == old(log)
      ensures Paths.Join(root, dir) != "" && dir !in old(dirCache) ==>
        err == Some(DirNotFound) && dirCache == old(dirCache) && log == old(log)
      ensures Paths.Join(root, dir) != "" && dir in old(dirCache) ==>
        var request := DeleteRequest([Strconv.ParseInt(old(dirCache)[dir]).value], true);
        && log == old(log) + [DeleteCall(request)]
        && match server.delete(request)
           case Failure(e) => err == Some(Wrapped("rmdir failed: ", e)) && dirCache == old(dirCache)
           case Success(status) =>
             if status == StatusSuccess then err.None? && dirCache == FlushDir(old(dirCache), rootID, dir)
             else err == Some(Message("delete, no api success")) && dirCache == old(dirCache)
    {
      var rootPath := Paths.Join(root, dir);
      if rootPath == "" {
        return Some(Message("can't purge root directory"));
      }
      if dir !in dirCache {
        return Some(DirNotFound);
      }
      var iDir := Strconv.ParseInt(dirCache[dir]).value;
      var request := DeleteRequest([iDir], true);
      log := log + [DeleteCall(request)];
      var result := server.delete(request);
      if result.Failure? {
        return Some(Wrapped("rmdir failed: ", result.error));
      }
      if result.value != StatusSuccess {
        return Some(Message("delete, no api success"));
      }
      dirCache := FlushDir(dirCache, rootID, dir);
      err := None;
    }
  }

  /** A purge of a cached folder sends one delete request naming that folder, for good. */
  lemma PurgeTargetsCachedFolder(cache: map<string, string>, dir: string, n: Strconv.Int64)
    requires dir in cache && cache[dir] == Strconv.FormatInt(n)
    ensures DeleteRequest([Strconv.ParseInt(cache[dir]).value], true) == DeleteRequest([n], true)
  {
    Strconv.ParseFormatInt(n);
  }

  /** An object of the file system: its path and the metadata fields the backend keeps. */
  class Object {
    const fs: Fs
    const remote: string
    var hasMetaData: bool
    var size: Strconv.Int64
    var modTime: Time
    var id: string
    var mimeType: string

    constructor (fs: Fs, remote: string)
      ensures this.fs == fs && this.remote == remote && State() == Blank
    {
      this.fs := fs;
      this.remote := remote;
      hasMetaData, size, modTime, id, mimeType := false, 0, ZeroTime, "", "";
    }

    function State(): ObjectState
      reads this
    {
      ObjectState(hasMetaData, size, modTime, id, mimeType)
    }

    /** setMetaData, proved against WithInfo: a folder is ErrorIsDir and leaves the object as it was. */
    method SetMetaData(info: Item) returns (err: Option<Error>)
      modifies this
      ensures match WithInfo(old(State()), info)
        case Failure(e) => err == Some(e) && State() == old(State())
        case Success(s) => err.None? && State() == s
    {
      if info.itemType == ItemTypeFolder {
        return Some(IsDir);
      }
      hasMetaData := true;
      size := info.fileSize;
      modTime := info.ModTime();
      id := info.GetID();
      err := None;
    }

    /**
     * readMetaData: nothing happens once the metadata is known; otherwise the metadata of the
     * object's path, an error reading "object not found" becoming ErrorObjectNotFound.
     */
    method ReadMetaData() returns (err: Option<Error>)
      requires !hasMetaData ==> LeafListingEnds(fs.dirCache, fs.server, fs.enc.toStandard, remote)
      modifies this, fs`log
      ensures old(hasMetaData) ==> err.None? && State() == old(State()) && fs.log == old(fs.log)
      ensures !old(hasMetaData) ==> fs.log == old(fs.log) + MetaDataRequests(fs.dirCache, fs.server, fs.enc.toStandard, remote)
      ensures !old(hasMetaData) ==>
        match MetaDataForPath(fs.dirCache, fs.server, fs.enc.toStandard, remote)
        case Failure(e) => err == Some(if Text(e) == "object not found" then ObjectNotFound else e) && State() == old(State())
        case Success(info) => err.None? && Success(State()) == WithInfo(old(State()), info)
    {
      if hasMetaData {
        return None;
      }
      var info := fs.ReadMetaDataForPath(remote);
      if info.Failure? {
        return Some(if Text(info.error) == "object not found" then ObjectNotFound else info.error);
      }
      MetaDataForPathFinds(fs.dirCache, fs.server, fs.enc.toStandard, remote);
      err := SetMetaData(info.value);
    }

    /**
     * Size: the size once the metadata is known; otherwise the size of the file the lookup
     * finds, with its metadata set, or -1 when the lookup failed.
     */
    method Size() returns (n: Strconv.Int64)
      requires !hasMetaData ==> LeafListingEnds(fs.dirCache, fs.server, fs.enc.toStandard, remote)
      modifies this, fs`log
      ensures old(hasMetaData) ==> n == old(size) && State() == old(State()) && fs.log == old(fs.log)
      ensures !old(hasMetaData) ==>
        && fs.log == old(fs.log) + MetaDataRequests(fs.dirCache, fs.server, fs.enc.toStandard, remote)
        && match MetaDataForPath(fs.dirCache, fs.server, fs.enc.toStandard, remote)
           case Failure(_) => n == -1 && State() == old(State())
           case Success(info) => n == info.fileSize && Success(State()) == WithInfo(old(State()), info)
      ensures hasMetaData ==> n == size
      ensures !hasMetaData ==> n == -1
    {
      var err := ReadMetaData();
      if err.Some? {
        return -1;
      }
      n := size;
    }

    /** Open: without an identifier it fails before any request; otherwise it downloads by identifier. */
    method Open() returns (r: Result<seq<bv8>, Error>)
      modifies fs`log
      ensures id == "" ==> r == Failure(Message("Download nicht möglich - keine ID vorhanden")) && fs.log == old(fs.log)
      ensures id != "" ==>
        fs.log == old(fs.log) + [DownloadCall("/file-entries/download/" + id)]
        && r == fs.server.download("/file-entries/download/" + id)
    {
      if id == "" {
        return Failure(Message("Download nicht möglich - keine ID vorhanden"));
      }
      var downloadPath := "/file-entries/download/" + id;
      fs.log := fs.log + [DownloadCall(downloadPath)];
      r := fs.server.download(downloadPath);
    }

    /**
     * upload: `content` is what copying the reader gave. The object changes only on a
     * "success" status, and then takes the identifier, size, creation time and MIME type
     * of the new entry.
     */
    method Upload(content: Result<seq<bv8>, Error>, leaf: string, directoryID: string) returns (err: Option<Error>)
      modifies this, fs`log
      ensures content.Failure? ==>
        err == Some(Wrapped("failed to copy file: ", content.error)) && State() == old(State()) && fs.log == old(fs.log)
      ensures content.Success? ==>
        var request := UploadRequest(leaf, content.value, if directoryID != "" then Some(directoryID) else None);
        && fs.log == old(fs.log) + [UploadCall(request)]
        && match fs.server.upload(request)
           case Failure(e) => err == Some(Wrapped("failed to upload file: ", e)) && State() == old(State())
           case Success(response) =>
             if response.status != StatusSuccess then
               err == Some(Message("upload failed: " + response.status)) && State() == old(State())
             else
               && err.None? && hasMetaData
               && id == Strconv.FormatInt(response.fileEntry.id)
               && Strconv.ParseInt(id) == Strconv.Parsed(response.fileEntry.id, Strconv.Ok)
               && size == response.fileEntry.fileSize && modTime == response.fileEntry.createdAt
               && mimeType == response.fileEntry.mime
    {
      if content.Failure? {
        return Some(Wrapped("failed to copy file: ", content.error));
      }
      var parentId := if directoryID != "" then Some(directoryID) else None;
      var request := UploadRequest(leaf, content.value, parentId);
      fs.log := fs.log + [UploadCall(request)];
      var result := fs.server.upload(request);
      if result.Failure? {
        return Some(Wrapped("failed to upload file: ", result.error));
      }
      if result.value.status != StatusSuccess {
        return Some(Message("upload failed: " + result.value.status));
      }
      var entry := result.value.fileEntry;
      Strconv.ParseFormatInt(entry.id);
      id := Strconv.FormatInt(entry.id);
      size := entry.fileSize;
      modTime := entry.createdAt;
      mimeType := entry.mime;
      hasMetaData := true;
      err := None;
    }

    /**
     * Update: an unknown size (negative) fails before any lookup or request; the object's
     * directory must be in the cache; then a single upload into it.
     */
    method Update(content: Result<seq<bv8>, Error>, srcSize: Strconv.Int64) returns (err: Option<Error>)
      modifies this, fs`log
      ensures srcSize < 0 ==>
        err == Some(Message("can't upload unknown sizes objects")) && State() == old(State()) && fs.log == old(fs.log)
      ensures srcSize >= 0 && Paths.SplitPath(remote).directory !in fs.dirCache ==>
        err == Some(DirNotFound) && State() == old(State()) && fs.log == old(fs.log)
      ensures srcSize >= 0 && Paths.SplitPath(remote).directory in fs.dirCache && content.Failure? ==>
        err == Some(Wrapped("failed to copy file: ", content.error)) && State() == old(State()) && fs.log == old(fs.log)
      ensures srcSize >= 0 && Paths.SplitPath(remote).directory in fs.dirCache && content.Success? ==>
        var split := Paths.SplitPath(remote);
        var directoryID := fs.dirCache[split.directory];
        var request := UploadRequest(split.leaf, content.value, if directoryID != "" then Some(directoryID) else None);
        && fs.log == old(fs.log) + [UploadCall(request)]
        && match fs.server.upload(request)
           case Failure(e) => err == Some(Wrapped("failed to upload file: ", e)) && State() == old(State())
           case Success(response) =>
             if response.status != StatusSuccess then
               err == Some(Message("upload failed: " + response.status)) && State() == old(State())
             else
               && err.None? && hasMetaData && id == Strconv.FormatInt(response.fileEntry.id)
               && size == response.fileEntry.fileSize && modTime == response.fileEntry.createdAt
               && mimeType == response.fileEntry.mime
      ensures err.None? ==> srcSize >= 0 && hasMetaData && content.Success?
    {
      if srcSize < 0 {
        return Some(Message("can't upload unknown sizes objects"));
      }
      var split := Paths.SplitPath(remote);
      if split.directory !in fs.dirCache {
        return Some(DirNotFound);
      }
      var directoryID := fs.dirCache[split.directory];
      err := Upload(content, split.leaf, directoryID);
    }

    /**
     * Remove: deletes the entry whose number the identifier parses to, for good; the call's
     * error is passed on, and a status other than "success" is an error whose text is the status.
     */
    method Remove() returns (err: Option<Error>)
      modifies fs`log
      ensures var request := DeleteRequest([Strconv.ParseInt(id).value], true);
        && fs.log == old(fs.log) + [DeleteCall(request)]
        && match fs.server.delete(request)
           case Failure(e) => err == Some(e)
           case Success(status) => if status == StatusSuccess then err.None? else err == Some(Message(status))
    {
      var entryId := Strconv.ParseInt(id).value;
      var request := DeleteRequest([entryId], true);
      fs.log := fs.log + [DeleteCall(request)];
      var result := fs.server.delete(request);
      if result.Failure? {
        return Some(result.error);
      }
      if result.value != StatusSuccess {
        return Some(Message(result.value));
      }
      err := None;
    }
  }

  /** An object whose identifier came from setMetaData or upload deletes exactly its own entry. */
  lemma RemoveTargetsOwnEntry(n: Strconv.Int64)
    ensures DeleteRequest([Strconv.ParseInt(Strconv.FormatInt(n)).value], true) == DeleteRequest([n], true)
  {
    Strconv.ParseFormatInt(n);
  }

  /** An object without an identifier is not refused by Remove: its delete request names entry 0. */
  lemma RemoveWithoutIdNamesZero()
    ensures DeleteRequest([Strconv.ParseInt("").value], true) == DeleteRequest([0], true)
  {
  }
}

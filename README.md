# FileJump backend — a verified model

This project models the decision logic of rclone's FileJump backend, the Go package
`backend/filejump`, in Dafny. The backend turns rclone's file system operations into calls on
the FileJump HTTP API. The model covers:

- the paginated listing loop `listAll` and its three callers (`List`, `FindLeaf`, `readMetaDataForPath`);
- the `shouldRetry` classification the pacer consults after every call;
- the metadata an `Object` keeps (`setMetaData`, `readMetaData`, `Size`, a successful `upload`);
- the guards and status checks that decide whether an operation goes ahead and what it
  answers (`Update`, `Open`, `purgeCheck`, `Remove`, `upload`, `CreateDir`);
- the pure helpers `getExtensionAndMime`, `Item.GetID` and `Item.ModTime`.

The network is replaced by a `Server` value with one function per endpoint. Each function gives
the outcome of that request after the pacer's retries. The directory cache is a
`map<string, string>` from paths to folder identifiers. The name encoder and
`mime.TypeByExtension` are function parameters. Each file system keeps a log of the requests it
sent, in order, so the contracts can say which request went out and when none did.

Modules, one file each:

- `Wrappers` — `Option` and `Result`.
- `Errors` — the errors the backend returns, with the text Go's `Error()` gives them.
- `Strconv` — Go's `strconv.Itoa`, `strconv.Atoi` and `strconv.ParseInt(s, 10, 64)` on 64-bit
  platforms. This covers sign handling, syntax errors giving 0, out-of-range input clamped to
  the nearest bound, and the first offending character from the left deciding.
- `Paths` — `path.Ext`, `path.Join`, the directory cache's `SplitPath`, `strings.EqualFold`
  and `strings.Contains`.
- `Api` — the `Item` and `FileEntries` JSON shapes of `backend/filejump/api/types.go`.
- `Retry` — `shouldRetry` and `retryErrorCodes`.
- `Listing` — `listAll`:
  - as an imperative method (`ListAll`, whose inner loop is `ScanPage`);
  - as a recursive specification over the page chain (`Walk`, and `Listing` for a whole listing);
  - with the lemmas that characterise that specification.
- `FileJump` — the `Fs` and `Object` classes, their operations, and lemmas about them.

`Fs` has the cache (`dirCache`) and the request log as fields, and `Object` has the five
metadata fields as fields. Their methods change those fields in place, as the Go methods do.
`List` keeps `path.Join(dir, name)` as each entry's remote path. Each listed folder becomes a
directory entry and a cache put. Each other item becomes an object entry carrying the metadata
`setMetaData` gives it.

Behaviour of the code worth knowing, which the model follows:

- `purgeCheck` flushes the directory cache only after the delete request succeeded with status
  `"success"`. Every error returns before `FlushDir` (filejump.go:613-618), so a failed delete
  never evicts the cache. The later `if err != nil` at filejump.go:620-622 tests an `err` that
  is nil at that point, so it can never fire. `Fs.PurgeCheck` states that on every error path
  the cache is unchanged.
- Entries of an unrecognised type are not filtered out. The two branches of the type test are
  `== folder` and `!= folder`, so the "unknown type" branch (filejump.go:361-364) is unreachable
  and every non-folder is treated as a file. `Listing.ScanPage` carries that branch with
  `assert false`.
- `List`'s `iErr` path (filejump.go:413-417) cannot fire. `newObjectWithInfo` fails only when
  `setMetaData` does, and `setMetaData` fails only on folders, which take the other branch
  (`FileJump.ListNeverStops`). The second folder test in `setMetaData` (filejump.go:756-758)
  is dead for the same reason.
- `CreateDir` does not read the response's `status` field. Any response without a transport
  error yields the folder identifier it carries.

## Model

| member | source | states |
|---|---|---|
| Listing.ListAll | backend/filejump/filejump.go:327-384 | The `listAll` loop over pages: its found flag, the items it hands the callback, the page parameters it requests and its error are exactly those of the `Walk` specification from the first request. |
| Listing.Walk | backend/filejump/filejump.go:340-382 | The loop as a recursive specification over the page chain, one request per step: a failed request ends it with the wrapped error, a page on which the callback accepts a filtered item ends it as found, a page without a next page ends it, any other page goes on to the next one. No ensures; its properties are the `Walk*` lemmas below. |
| Listing.Listing | backend/filejump/filejump.go:327-384 | A complete listing: `Walk` from the first request, which carries no `page` parameter, with any step bound that suffices. No ensures; `Listing.ListingCharacterised` states its properties. |
| Listing.Selected | backend/filejump/filejump.go:353-364 | The type filter: a folder passes unless `filesOnly`, anything else passes unless `directoriesOnly`. No ensures; `Listing.SurvivorsSelected` and `Listing.SurvivorsComplete` state its use. |
| Listing.TakeThroughFirst | backend/filejump/filejump.go:373-376 | When the callback accepts some candidate, the handed prefix ends at the first accepted candidate, and no candidate before it was accepted. |
| Listing.ListedAfterFailure | backend/filejump/filejump.go:347-350 | A failed request ends the listing with nothing more handed over and the error wrapped as "couldn't list files: ". |
| Listing.ListedAfterLastPage | backend/filejump/filejump.go:373-381 | A page whose filtered items the callback accepts one of, or that has no next page, is the last request; the items handed over end at the first accepted one. |
| Listing.ListedAfterPage | backend/filejump/filejump.go:351-381 | Any other page hands over all its filtered items and the listing goes on with the next page it announces. |
| Listing.ScanPage | backend/filejump/filejump.go:351-377 | The inner loop over one page's array: it reports stopping exactly when some filtered, decoded item is accepted by the callback, and hands over the filtered items up to and including the first accepted one. |
| Listing.Decoded | backend/filejump/filejump.go:372 | Decoding a name through `ToStandardName` keeps the item's type and identifier. |
| Listing.Survivors | backend/filejump/filejump.go:351-372 | The filter never adds items: a page's survivors are at most as many as its items. |
| Listing.SurvivorsFilter | backend/filejump/filejump.go:351-372 | With `filesOnly` folders are dropped and with `directoriesOnly` non-folders are dropped: every survivor is selected, and every selected item of the page survives, decoded. |
| Listing.SurvivorsSelected | backend/filejump/filejump.go:353-364 | Nothing that the flags exclude reaches the callback. |
| Listing.SurvivorsComplete | backend/filejump/filejump.go:351-372 | Every item the flags admit, of any non-folder type including unknown ones, reaches the callback decoded. |
| Listing.SurvivorsAll | backend/filejump/filejump.go:351-372 | With neither flag, the survivors are the whole page, decoded, in array order. |
| Listing.TakeThrough | backend/filejump/filejump.go:373-376 | What the callback is given is a prefix of the candidates. If any is accepted, the prefix ends at the first accepted one and nothing before it was accepted. If none is accepted, it is all of them. |
| Listing.WalkRequests | backend/filejump/filejump.go:340-382 | The first request carries the starting page parameter. Every later request asks for the next page the previous response announced, and every request but the last got a page that had one. |
| Listing.WalkEnds | backend/filejump/filejump.go:347-381 | The last request ends the listing. There is an error exactly when it failed, and then it is wrapped as "couldn't list files: ". Found means an item of that page was accepted. Otherwise, without error, that page has no next page. |
| Listing.WalkHanded | backend/filejump/filejump.go:351-377 | The callback receives the survivors of the requested pages, in page order and array order, up to the first accepted item. Found holds exactly when some survivor was accepted, and then there is no error. |
| Listing.HandedAfter | backend/filejump/filejump.go:373-377 | Items from a page whose items were all refused are followed by what the rest of the listing hands over, and that equals taking through the concatenation. |
| Listing.WalkContinues | backend/filejump/filejump.go:373-376 | The early exit: every request but the last got a page on which the callback accepted nothing, so no item or page is processed after an accepted one. |
| Listing.WalkCharacterised | backend/filejump/filejump.go:340-382 | The whole behaviour of the loop from a given page: the request chain, no request after a page with an accepted item, the handed items, found exactly on acceptance with no error, and the way the last request ended it. |
| Listing.ListingCharacterised | backend/filejump/filejump.go:327-384 | The same for a complete listing, including the early exit: its first request carries no `page` parameter. |
| Listing.ListingIsWalk | backend/filejump/filejump.go:340-382 | The outcome does not depend on how many steps are allowed, as long as they suffice for the page chain to end. |
| Listing.ListAllOf | backend/filejump/filejump.go:327-384 | Running the loop gives the listing's outcome for any server on which the listing ends. When found, there is no error and the last item handed over is one the callback accepts. |
| Listing.AllSurvivorsFilter | backend/filejump/filejump.go:351-372 | Over all fetched pages, only selected items are handed on, and every selected item of every successfully fetched page is a candidate, decoded. |
| Listing.StopsAppend | backend/filejump/filejump.go:373-376 | Some item of a concatenation is accepted exactly when one is accepted on one side. |
| Listing.TakeThroughAppend | backend/filejump/filejump.go:373-377 | When nothing in the first part is accepted, the handed prefix of a concatenation is the first part followed by the handed prefix of the second. |
| Listing.SurvivorsAppend | backend/filejump/filejump.go:351-372 | Filtering distributes over concatenation. |
| Listing.WalkFuel | backend/filejump/filejump.go:340-382 | Any two sufficient step bounds give the same listing. |
| Retry.ExpiredToken | backend/filejump/filejump.go:460 | The authentication-retry test: a response with status 401 whose `Www-Authenticate` header contains `expired_token`. No ensures; `Retry.ExpiredTokenIsRetried` and `Retry.PlainUnauthorizedIsNotRetried` state its use. |
| Retry.ShouldRetry | backend/filejump/filejump.go:443-472 | When the context is done, no retry, and the context's error stands in for a nil error. Otherwise a retry exactly when the response is a 401 whose challenge contains `expired_token`, or the generic classifier says so, or the status is one of 429, 500, 502, 503, 504, 509. The error itself is returned unchanged. |
| Retry.ShouldRetryHTTP | backend/filejump/filejump.go:471 | `fserrors.ShouldRetryHTTP`: a response is present and its status is one of the given codes. No ensures; `Retry.ShouldRetry` states its use. |
| Retry.PlainUnauthorizedIsNotRetried | backend/filejump/filejump.go:458-471 | A 401 without `expired_token` is not retried unless the generic classifier says so. |
| Retry.ExpiredTokenIsRetried | backend/filejump/filejump.go:458-471 | A 401 with an `expired_token` challenge is retried on its own, without a listed status or the classifier. |
| Retry.NoResponse | backend/filejump/filejump.go:454-471 | Without a response, only the context and the generic classifier decide. |
| Api.Item.ModTime | backend/filejump/api/types.go:61-67 | The update time when it is set. Otherwise the creation time. The result is zero exactly when both are, and there is never an error. |
| Api.Item.GetID | backend/filejump/api/types.go:56-58 | The identifier in decimal: never empty, and starting with '-' exactly when the identifier is negative. |
| Api.GetIDRoundTrip | backend/filejump/api/types.go:56-58 | `GetID` is never empty, and parsing it gives back the identifier with no error. |
| Api.GetIDInjective | backend/filejump/api/types.go:56-58 | Distinct identifiers give distinct `GetID` strings. |
| Api.FolderTagIsDistinct | backend/filejump/api/types.go:9-18 | "folder" differs from every other declared type tag. |
| Strconv.ParseInt | backend/filejump/filejump.go:692 | On a syntax error the value is 0. On a range error the value is the 64-bit bound on the input's side: the minimum exactly when the input starts with '-', the maximum otherwise. |
| Strconv.FormatInt | backend/filejump/filejump.go:725 | `strconv.Itoa`: never empty, starting with '-' exactly for a negative number, followed by a digit. |
| Strconv.Digits | backend/filejump/filejump.go:725 | Decimal digits of a natural number: non-empty, starting with a digit, one digit exactly below ten. |
| Strconv.ParseUint | backend/filejump/filejump.go:605 | The unsigned part of `strconv.Atoi`: an empty string is a syntax error, anything else is read by the digit loop. No ensures; `Strconv.ScanDigits` and `Strconv.ParseUintOfDigits` state its properties. |
| Strconv.ScanDigits | backend/filejump/filejump.go:605 | The digit loop's value fits in 64 unsigned bits. A syntax error gives 0 and an overflow gives the unsigned maximum. |
| Strconv.ParseFormatInt | backend/filejump/api/types.go:56-58 | Reading back `strconv.Itoa` of any 64-bit integer gives that integer with no error. |
| Strconv.FormatIntInjective | backend/filejump/filejump.go:725 | `strconv.Itoa` is injective on 64-bit integers. |
| Strconv.ScanDigitsOfDigits | backend/filejump/filejump.go:1175 | The digit loop reads a number's decimal digits back as that number. |
| Strconv.ParseUintOfDigits | backend/filejump/filejump.go:1175 | A number's decimal digits have no sign in front and read back as that number. |
| Strconv.DigitsShape | backend/filejump/filejump.go:1017 | Decimal renderings are non-empty runs of digits. |
| Paths.Ext | backend/filejump/filejump.go:926 | A non-empty extension is a suffix of the name that starts with its only '.' and holds no '/'. An empty one means the last path element has no '.'. |
| Paths.Join | backend/filejump/filejump.go:405 | The result is empty exactly when both parts are. Two non-empty parts are joined by one '/'. |
| Paths.SplitPath | backend/filejump/filejump.go:1230 | The leaf holds no '/'. A path with a '/' is the directory, a '/' and the leaf. A path without one is all leaf. |
| Paths.LastSlash | backend/filejump/filejump.go:926 | The index of the last '/', or -1 when there is none. |
| Paths.EqualFold | backend/filejump/filejump.go:670 | `strings.EqualFold` with ASCII folding: the same length, and equal characters at every position once upper-case letters are lowered. No ensures; its properties are in the next row. |
| Paths.Contains | backend/filejump/filejump.go:460 | `strings.Contains`: the second string occurs at some position of the first. No ensures; it is the definition `shouldRetry` reads. |
| Paths.EqualFoldEquivalence | backend/filejump/filejump.go:670 | Case-insensitive name matching is reflexive, symmetric and transitive. |
| FileJump.WithInfo | backend/filejump/filejump.go:751-765 | A folder is refused with ErrorIsDir. Anything else sets hasMetaData, the size, `ModTime()` and `GetID()`, and keeps the MIME type. |
| FileJump.WithInfoForgetsPast | backend/filejump/filejump.go:759-763 | The result does not depend on the earlier metadata, except for the MIME type, which it keeps. |
| FileJump.Object.SetMetaData | backend/filejump/filejump.go:751-765 | The object's new state is that of `WithInfo`. On a folder it returns ErrorIsDir and is left unchanged. |
| FileJump.EntryOf | backend/filejump/filejump.go:404-419 | An entry's remote is `path.Join(dir, name)`. It is a directory entry exactly for a folder, with its modification time and identifier, and an object entry otherwise, with `setMetaData`'s metadata. |
| FileJump.EntriesOf | backend/filejump/filejump.go:404-419 | One entry per listed item. |
| FileJump.EntriesOfAt | backend/filejump/filejump.go:404-419 | The entry at each position is the one made of the item at that position, so the order is the listing order. |
| FileJump.PutFolders | backend/filejump/filejump.go:405-408 | `List`'s cache puts, one per listed folder in listing order, under `path.Join(dir, name)`. No ensures; the next rows state its properties. |
| FileJump.PutFoldersKeys | backend/filejump/filejump.go:405-408 | After the puts, a key is present exactly when it was before or names a listed folder. |
| FileJump.PutFoldersKept | backend/filejump/filejump.go:405-408 | A key naming no listed folder keeps its old identifier. |
| FileJump.PutFoldersLast | backend/filejump/filejump.go:405-408 | A key naming a listed folder holds the identifier of the last listed folder with that path: no folder listed after it has the same path. |
| FileJump.PutFoldersLookup | backend/filejump/filejump.go:406-408 | After `List`'s cache puts, a key is present exactly when it was before or names a listed folder. A key naming no listed folder keeps its identifier. A key naming a listed folder holds the identifier of the last listed folder with that path. |
| FileJump.PutListedStep | backend/filejump/filejump.go:404-419 | Each listed item adds its put and its entry after those of the items before it. |
| FileJump.ListedInto | backend/filejump/filejump.go:404-419 | The callback of `List` applied to the listed items in turn gives the cache with every listed folder put and the entries in listing order. |
| FileJump.Fs.PutListed | backend/filejump/filejump.go:404-419 | The file system's cache becomes the old cache with every listed folder put, and the entries are those of the listed items. |
| FileJump.Fs.List | backend/filejump/filejump.go:397-440 | A directory missing from the cache gives ErrorDirNotFound with no request. Otherwise the cache gains every listed folder and the log gains the listing requests. The entries are those of the handed items in order, or none with the listing's error. |
| FileJump.ListNeverStops | backend/filejump/filejump.go:412-417 | `List`'s callback never ends the listing early, because an object made from a non-folder never fails. |
| FileJump.ListSeesEverything | backend/filejump/filejump.go:397-432 | `List` is never found-terminated. It hands over every item of every fetched page, decoded, and without an error the last fetched page has no next page. |
| FileJump.FlushDir | backend/filejump/filejump.go:619 | The directory cache's `FlushDir`: drops the directory and every key below it, and for "" resets the cache to the root's identifier alone, as `ResetRoot` does. No ensures; the properties are in the next two rows. |
| FileJump.FlushDirProperties | backend/filejump/filejump.go:619 | After a flush of a directory, it and everything below it are gone and every other key keeps its identifier. Flushing "" leaves only the root's identifier under "". Flushing twice is flushing once. |
| FileJump.FlushDirRemovesSubtree | backend/filejump/filejump.go:619 | Every path joined below a flushed directory is gone. |
| FileJump.ParentIdFor | backend/filejump/filejump.go:692-696 | The request's parent is null exactly when `pathID` is "". Otherwise it is the (possibly failed) parse of `pathID`. |
| FileJump.ParentIdOfFormatted | backend/filejump/filejump.go:692-696 | A parent identifier written by `Itoa` names that very folder. |
| FileJump.ParentIdOfNonNumeric | backend/filejump/filejump.go:692-696 | A non-numeric parent is not refused. Its parse error is dropped and folder 0 is named. |
| FileJump.Fs.CreateDir | backend/filejump/filejump.go:680-726 | Exactly one create request goes out, with the encoded name and the parent from `ParentIdFor`. A failure gives "" and the error. A success gives exactly `strconv.Itoa` of the new folder's identifier, which parses back to it. |
| FileJump.GetExtensionAndMime | backend/filejump/filejump.go:924-942 | A name without an extension gives ("bin", application/octet-stream). Otherwise the extension without its dot, and the lookup's MIME type, with application/octet-stream when the lookup gives "". The MIME type is never empty. |
| FileJump.ListStops | backend/filejump/filejump.go:404-432 | `List`'s callback as a stop test: it ends the listing only for a non-folder whose object cannot be made. No ensures; `FileJump.ListNeverStops` shows it never does. |
| FileJump.FoldMatch | backend/filejump/filejump.go:669-675 | `FindLeaf`'s callback: accepts an item whose decoded name equals the leaf ignoring case. No ensures; `FileJump.FindLeafCharacterised` states its use. |
| FileJump.NameMatch | backend/filejump/filejump.go:1238-1244 | `readMetaDataForPath`'s callback: accepts an item whose decoded name is exactly the leaf. No ensures; `FileJump.MetaDataForPathFinds` states its use. |
| FileJump.MetaDataForPath | backend/filejump/filejump.go:1227-1252 | `readMetaDataForPath` as a specification: a directory missing from the cache is ErrorObjectNotFound; otherwise the listing's error, ErrorObjectNotFound when nothing was accepted, or the accepted file. No ensures; the next rows state its properties. |
| FileJump.MetaDataForPathFinds | backend/filejump/filejump.go:1227-1252 | A missing directory is ErrorObjectNotFound. A result is a file, never a folder, named exactly the leaf, taken from a fetched page of the directory, and the first file with that name in listing order. |
| FileJump.MetaDataForPathMisses | backend/filejump/filejump.go:1238-1251 | When no fetched page holds a file whose decoded name is the leaf, the lookup fails: with ErrorObjectNotFound when the listing had no error, with the listing's error otherwise. |
| FileJump.MetaDataForPathPresentIsFound | backend/filejump/filejump.go:1238-1251 | A file on a fetched page of the leaf's folder whose decoded name is exactly the leaf is found: the lookup succeeds with a file of that name. |
| FileJump.Fs.ReadMetaDataForPath | backend/filejump/filejump.go:1227-1252 | The answer is `MetaDataForPath`, and the only requests sent are the listing requests of the leaf's directory (`MetaDataRequests`), none when it is not cached. |
| FileJump.FindLeafFound | backend/filejump/filejump.go:666-677 | When found, there is no error, and the last handed item is a folder of the listing whose decoded name equals the leaf ignoring case, with no folder listed before it matching. |
| FileJump.FindLeafCharacterised | backend/filejump/filejump.go:666-677 | When found, the last handed item is a folder of the listing whose decoded name equals the leaf ignoring case, and no folder listed before it matches, so the answer is the first match. When the listing ends without error and without a find, no folder on any fetched page matches. |
| FileJump.Fs.FindLeaf | backend/filejump/filejump.go:666-677 | found and the error are the folder listing's. The answer is the identifier of the accepted folder when found, and "" otherwise. Only listing requests are sent. |
| FileJump.Fs.PurgeCheck | backend/filejump/filejump.go:584-624 | An empty joined root is refused with no request. A directory missing from the cache gives ErrorDirNotFound with no request. Otherwise one permanent delete of the parsed folder identifier is sent. The cache is flushed only on status "success". A call error is wrapped as "rmdir failed: ", another status gives "delete, no api success", and the cache stays as it was. |
| FileJump.PurgeTargetsCachedFolder | backend/filejump/filejump.go:605-609 | A purge of a folder cached from `GetID` deletes exactly that folder. |
| Errors.Text | backend/filejump/filejump.go:1264 | The text Go's `Error()` gives each error: "object not found", "directory not found", "is a directory not a file" for the three sentinel errors, the message itself for a plain one, and the prefix followed by the cause's text for a wrapped one. No ensures; `FileJump.Object.ReadMetaData` states how it is tested. |
| FileJump.Object.ReadMetaData | backend/filejump/filejump.go:1257-1270 | Once the metadata is known nothing happens and no request is sent. Otherwise the request log gains the lookup's listing requests; an error whose text is "object not found" becomes ErrorObjectNotFound and leaves the object unchanged, and a found file sets the metadata as `WithInfo` does. |
| FileJump.Object.Size | backend/filejump/filejump.go:1280-1287 | Known metadata: its size, with nothing sent or changed. Otherwise the lookup's listing requests are sent; a failed lookup gives -1 and leaves the object unchanged, and a found file gives its size and sets the metadata as `WithInfo` does. |
| FileJump.Object.Open | backend/filejump/filejump.go:839-886 | An empty identifier fails with "Download nicht möglich - keine ID vorhanden" and sends nothing. Otherwise exactly one download of `/file-entries/download/` + id is sent and its outcome returned. |
| FileJump.Object.Upload | backend/filejump/filejump.go:947-1024 | A failed copy of the content is wrapped as "failed to copy file: " and sends nothing. Otherwise one upload is sent, with a parentId field only for a non-empty directory identifier. The object changes only on status "success", and then takes exactly `strconv.Itoa` of the new entry's identifier, its size, creation time and MIME type. A call error and a non-success status leave it unchanged. |
| FileJump.Object.Update | backend/filejump/filejump.go:893-922 | A negative (unknown) size fails before any lookup or request. A leaf whose directory is not cached gives ErrorDirNotFound with no request. Otherwise the outcome is that of the upload into the cached directory: a failed copy sends nothing, a call error or a non-success status leaves the object unchanged, and "success" sets the new entry's `strconv.Itoa` identifier, size, creation time and MIME type. Success implies a known size and known metadata. |
| FileJump.Object.Remove | backend/filejump/filejump.go:1164-1190 | One permanent delete of the parsed identifier is sent. A call error is passed on unchanged, and a status other than "success" is an error whose text is that status. |
| FileJump.RemoveTargetsOwnEntry | backend/filejump/filejump.go:1175-1179 | An identifier set by `setMetaData` or `upload` deletes exactly its own entry. |
| FileJump.RemoveWithoutIdNamesZero | backend/filejump/filejump.go:1175-1179 | An object without an identifier is not refused by `Remove`: its delete request names entry 0. |
| FileJump.Fs.constructor | backend/filejump/filejump.go:270-284 | A new file system keeps the root's identifier, its cache knows only that identifier, and it has sent nothing. |
| FileJump.Object.constructor | backend/filejump/filejump.go:731-736 | A new object has no metadata, and its size, time, identifier and MIME type are zero. |

## Left out

- HTTP transport, `rest.Client`, `CallJSON`, JSON encoding and decoding, and headers are not modelled. Each endpoint is a function of its request, and a decoding failure is part of the error it returns.
- The multipart body of `upload` is not modelled. Its form-building errors ("failed to create form file", "failed to add parentId", "failed to close multipart writer") arise only from writes to an in-memory buffer, so they are left out. A failed copy of the reader is modelled through the `content` parameter.
- The pacer's backoff, sleeps and retry count are not modelled: each endpoint function is the outcome after retries. `shouldRetry` is modelled on its own, with the generic `fserrors.ShouldRetry` as a boolean input and the context's cancellation as an optional error.
- The redirect-following in `Open` (a 302 with a `Location` header, fetched without authentication) and `fs.FixRangeOption` are not modelled. The download endpoint function stands for the final body or error.
- The directory cache internals are not part of this model: `FindRoot`, `FindPath` with creation, the fallback walk of `FindDir` through `FindLeaf` on a miss, and locking. A cache miss is ErrorDirNotFound. `FlushDir` is modelled as removing the directory and every path below it, and flushing "" as `ResetRoot`, which leaves only the root's identifier; the root-found flag `ResetRoot` also clears is not modelled.
- FileJump.Object.Update: the directory is looked up in the cache without creating it, and a miss gives ErrorDirNotFound, where `FindPath(ctx, remote, true)` would create missing directories through `CreateDir`.
- FileJump.Fs.List: the objects it returns are represented by their metadata (`ObjectState`), not by `Object` instances bound to the file system.
- FileJump.Fs.PurgeCheck: the `check` flag is accepted and not read, as in the source. `Rmdir`, which is `purgeCheck(dir, true)`, has no member of its own.
- Listing.ListAll: only listings that end after finitely many requests are covered (the `ChainEnds` and `ListingEnds` preconditions, on the one folder, filter and callback each operation uses). A listing ends at a failed request, at a page on which the callback accepts a filtered item, or at a page without a next page. Only a server that keeps announcing next pages, with no failure and no accepted item, is excluded; on it the Go loop runs forever, which is not modelled. The `perPage` and `folderId` query parameters are fixed, and `activeOnly` is unused in the source.
- `path.Join` does not clean its result here (no removal of `.`, `..` or doubled slashes). `strings.EqualFold` folds only ASCII letters.
- `time.Time` is an integer instant whose zero is Go's zero time. The timestamp formats the JSON decoder accepts are not modelled.
- The name encoder (`encoder.MultiEncoder`) and `mime.TypeByExtension` are function parameters, not implementations.
- `NewFs`, its configuration, and the probe of the root as a file are not modelled. The constructor takes the root's identifier as a parameter. `NewFs` passes an empty one, which makes `CreateDir` send a null parent for the root.
- `NewObject`, `createObject`, `Put`, `PutUnchecked`, `Mkdir`, and the accessors (`Name`, `Root`, `String`, `Precision`, `Hashes`, `Features`, `Fs`, `Hash`, `Storable`, `Remote`, `ModTime`) are not modelled: they are routing through the dircache and the modelled operations. `SetModTime`, which panics, is also left out.
- Logging is a side effect only and is left out. The commented-out code is left out too.
- cmd/obscure/obscure.go is not part of this model: it only prints the result of a configuration helper that is not shown.

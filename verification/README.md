# gonic: a verified model of its stateful core

gonic is a music server. This project models the parts of it in which state has to survive
concurrency, deletion or re-encoding, and proves what those parts promise. Line references are to the
server's own source files.

| file | what it models |
|---|---|
| `TranscodeCache.dfy`, `TranscodeAnswers.dfy` | the transcode cache: every interleaving of `Transcode`, `CachedPath` and `Eject`, and what each is told |
| `CoverCache.dfy`, `CoverAnswers.dfy`, `CoverChanges.dfy` | the cover cache: every interleaving of `getCoverArt` with requests that change art, what is served, and what a change commits and purges |
| `MosaicBlobs.dfy`, `CoverNames.dfy` | mosaics whose blobs are missing, and the file names a purge picks |
| `Heal.dfy`, `Overrides.dfy`, `Collections.dfy`, `Identity.dfy` | cover overrides and collection entries across rescans that delete and re-issue album ids |
| `Walk.dfy`, `ScanSteps.dfy`, `Rescan.dfy` | the walk of a scan, and what it sees and leaves |
| `Clean.dfy`, `CleanSteps.dfy` | the six clean steps |
| `Tagging.dfy`, `TagWalk.dfy`, `ScanTags.dfy` | the genres, credits and titles that a visit, a walk and a scan leave |
| `Scans.dfy`, `ScanLookup.dfy` | whole scans, any number of them, and looking up what was scanned |
| `Artists.dfy`, `Genres.dfy`, `TextTree.dfy` | artist rows and MusicBrainz ids, the genre forest and inherited genres |
| `Paths.dfy`, `SpecIdPaths.dfy` | Go's path functions, and lookups between ids and absolute paths |
| `Lines.dfy`, `Strconv.dfy`, `Playlists.dfy` | line reading, quoting, and M3U playlists |
| `CollectionTracks.dfy`, `DirCache.dfy`, `SizedWriter.dfy` | a collection's track expansion, ejecting from a cache directory, and the length-promising writer |

Code that changes state in place is a class with methods or a method with loops, proved equal to a function of
the state before; what the program promises is then proved of those functions. Concurrent requests are
threads of a transition system, one atomic step per lock, database or file operation, and the theorems hold
of every run.

Hypotheses, used everywhere: file system and database calls succeed unless a step models the failure; the
process does not stop in the middle of a step; cache keys and content hashes are injective; row ids are never
reused; foreign keys act as part of each DELETE.

Some promises turn out not to hold of the code as it stands. Each has its exact condition:

- A mosaic in the cover cache can go stale. A set request that has stored its blob but not its row loses the
  blob to a clear request for another album that had the same cover (`MosaicBlobs.MosaicsCanGoStale`). A mosaic
  composed alone is right exactly when the blobs of its tiles are there (`MosaicBlobs.ComposesArtIffReadable`).
  Runs that lose no needed blob never serve a stale one (`CoverCache.CoversAreFresh`); from any reachable state
  in which one is missing, no mosaic is cached yet and some other album has art, the next request caches a stale
  one (`MosaicBlobs.SpoiledGoesStale`). Album covers are never stale (`CoverCache.AlbumCoversAreFresh`).
- A playlist with a line of more than 65535 bytes is cut off there when it is read back, without an error.
  The address of an internet radio stream comes back as a path below the playlist's directory
  (`Playlists.StreamIsLost`). Read after Write gives the same playlist exactly when every line fits and every item
  is a clean absolute path (`Playlists.ReadAfterWrite`).
- Rewriting a playlist destroys other programs' comments from the first line of more than 65535 bytes on
  (`Playlists.LongLineLosesComment`). All of them survive exactly when no such comment is, or comes after, a line
  that long (`Playlists.CommentsSurviveIff`).
- A scan can delete rows it has seen: a folder that is excluded or cannot be read can take the folders below it
  with it, through the cascade on `parent_id` (`Scans.UnshelteredGoes`, with an input in
  `Scans.LeftOutParentDeletesSeen`). It keeps exactly the seen rows if and only if, before the scan, no row that is
  met only as the folder above a walked one has a parent that is not met (`Scans.ScanKeepsSeenIffSheltered`),
  which is so when nothing is left out (`Rescan.NoneLeftOutShelters`).
- `Lookup` misses a scanned track exactly when the podcast directory is a string prefix of its path
  (`SpecIdPaths.LookupFindsScanned`), and nothing is below a music directory `/` (`Paths.HasPrefixIsPrefix`).
- `Eject` indexes an empty list exactly when the limit is negative (`DirCache.Cache.Eject`).
- `SyncAlbumCoverOverrides` leaves an extension that stands without a hash. It publishes the join exactly when
  no album without an override has one (`Heal.SyncedIsInSync`).

## Model

| member | source | states |
|---|---|---|
| TranscodeCache.StepKeepsInv | transcode/transcoder_caching.go:30-112 | every step of every request keeps: the lock sets match what the requests hold, a key has one holder, a settled file is a complete output, and every start of the inner transcoder is accounted for |
| TranscodeCache.FreeKeysAreSettled | transcode/transcoder_caching.go:52-70 | in any run, when a key's lock is free its file is absent, empty or one complete successful output; what a finished request gave its caller is one complete output |
| TranscodeCache.OutputsAreWhatWasWritten | transcode/transcoder_caching.go:64-70 | an output is recorded only when the inner transcoder finishes without error, and is then exactly what the file holds |
| TranscodeCache.PathKeepsItsBytes | transcode/transcoder_caching.go:73-112 | a path that CachedPath has given out names the same non-empty bytes until the caller releases it |
| TranscodeAnswers.CachedPathIsTold | transcode/transcoder_caching.go:73-112 | in any run a CachedPath request that does not seek ends without a path if and only if its key's file was absent or empty at the step where it held the key's lock and looked; else it is given the path of a file with the bytes there were |
| TranscodeAnswers.TranscodeIsTold | transcode/transcoder_caching.go:30-71 | in any run a Transcode request that does not seek is sent the file it found with the key's lock held, or if that was empty every chunk its inner transcoder wrote, which is then what the file holds; only if that failed is it told so, and then the file is removed |
| TranscodeAnswers.AsideIsTold | transcode/transcoder_caching.go:34-37 | a seeking transcode goes to the inner transcoder under the read lock, a seeking lookup finds nothing, and neither changes a file |
| TranscodeAnswers.WaitingEjectKeepsOut | cache/cache.go:41-43 | while an Eject waits for the write lock, no request newly gets the read lock |
| TranscodeCache.InnerRunsAreBounded | transcode/transcoder_caching.go:52-70 | starts per key are at most one more than failures, empty outputs and ejections of it; without those the inner transcoder runs at most once |
| TranscodeCache.StepKeepsKeys | transcode/transcoder_caching.go:133-143 | the keyed mutex: two requests never hold one key |
| TranscodeCache.StepKeepsLocks | cache/cache.go:28-43 | ejecting excludes all readers and readers exclude it |
| TranscodeCache.NoDeadlock | cache/cache.go:41-43 | in every invariant state with an unfinished request, some unfinished request can step |
| TranscodeCache.RunNeverDeadlocks | transcode/transcoder_caching.go:30-112 | no reachable state deadlocks |
| CoverCache.StepKeepsInv | server/ctrlsubsonic/handlers_raw.go:95-151 | every step keeps: a cached file and every image on its way to one is a resize of the art the tables name now, or a purge of its id is still to come |
| CoverCache.ArtFrame | server/ctrlsubsonic/handlers_cover_manage.go:271-334 | a step that changes what an id's art is leaves a purge of that id to come, collections that contain the album included; creating a collection purges nothing, but it had no art before |
| CoverCache.PurgeIsAlone | server/ctrlsubsonic/handlers_raw.go:562-602 | a purge runs with no reader between miss and save, and leaves no file of its ids |
| CoverCache.TilingStep | server/ctrlsubsonic/covermosaic.go:36-66 | a step of the mosaic loop keeps its tiles those of the albums read so far, when nothing changed under it |
| CoverCache.RunKeepsInv | server/ctrlsubsonic/handlers_raw.go:95-151 | the invariant holds in every state of every run |
| CoverCache.AlbumCoversAreFresh | server/ctrlsubsonic/handlers_cover_manage.go:355-367 | in every run, when no request is between its commit and the end of its purge, every cached album cover is a resize of the art the album has now, under the format it has |
| CoverCache.CoversAreFresh | server/ctrlsubsonic/handlers_collection.go:111-163 | the same for collection mosaics, in every run that deletes no blob a row names or a request is about to name |
| CoverAnswers.CachedCoversShowTheRow | server/ctrlsubsonic/handlers_raw.go:197-216 | in every run a cached album cover, unless a purge of it is still to come, holds nothing but resizes of the album's override if its row has one, else of its folder's cover; an album with neither has no file |
| CoverAnswers.ServedCoverShowsTheRow | server/ctrlsubsonic/handlers_raw.go:95-151 | and so does the file that a request serves, at the size asked for or the picture's own if that is smaller |
| CoverAnswers.LastChangeStands | server/ctrlsubsonic/handlers_cover_manage.go:271-334 | in every run an album's override is what the last committed set or clear of it left |
| CoverAnswers.LastSetIsServed | server/ctrlsubsonic/handlers_raw.go:95-151 | in every run the cover that was set last is the one served, once nothing is pending for the album |
| CoverAnswers.AlbumIsAnswered | server/ctrlsubsonic/handlers_raw.go:95-151 | from any such state a request on its own serves the picture of the album's row if that can be opened, decoded and encoded, and nothing without one; with its blob gone only a file cached at that very size |
| CoverAnswers.OutcomeIsReached | server/ctrlsubsonic/handlers_raw.go:95-151 | a request on its own does end with that answer |
| CoverAnswers.GetStaysItself | server/ctrlsubsonic/handlers_raw.go:95-151 | in every run a request stays with the id and size it was asked for |
| CoverAnswers.TilesAreFirstFour | server/ctrlsubsonic/covermosaic.go:36-92 | a mosaic's tiles are, in order, the pictures of the first four albums of the list that have one within the limits: the override, else the folder's cover, else an embedded one |
| CoverAnswers.CachedMosaicsShowTheRows | server/ctrlsubsonic/covermosaic.go:36-66 | in every run that loses no blob a cached mosaic, unless a purge is to come, is composed of just these tiles |
| CoverAnswers.MosaicIsAnswered | server/ctrlsubsonic/covermosaic.go:36-66 | with no blob missing and nothing pending, a request on its own serves that mosaic, or nothing if no album has a picture |
| CoverChanges.CommitDoes | server/ctrlsubsonic/handlers_collection.go:68-163 | a commit sets or clears one override, replaces one list by the requested albums that exist, in their order, drops one, or creates one, and changes nothing else |
| CoverChanges.OnlyCommitsChange | server/ctrlsubsonic/handlers_cover_manage.go:271-334 | no other step changes a row or a list; a set request stores its blob first |
| CoverChanges.ChangeIsPurged | server/ctrlsubsonic/handlers_cover_manage.go:355-367 | in every run a change that has ended has committed and then purged exactly the covers of the album and of the collections that listed it, or of its collection |
| CoverChanges.FilesStay | server/ctrlsubsonic/handlers_raw.go:562-602 | a cached file goes exactly by a purge of its id or by ejection, and changes only by being saved again |
| CoverChanges.CountDecides | server/ctrlsubsonic/handlers_cover_manage.go:338-353 | the replaced blob is deleted exactly when it is not the one kept and no row names it |
| CoverChanges.CommitRemembers | server/ctrlsubsonic/handlers_cover_manage.go:271-334 | what is counted is the cover that the commit replaced, against the one it set |
| CoverChanges.DeletesUnnamed | server/ctrlsubsonic/handlers_cover_manage.go:338-353 | in every run a blob is deleted only by a request that found no row and no orphan naming it when it counted |
| CoverChanges.BlobsStay | server/ctrlsubsonic/handlers_cover_manage.go:338-353 | a blob goes only in that way |
| MosaicBlobs.ComposesArtIffReadable | server/ctrlsubsonic/covermosaic.go:36-119 | a mosaic composed with nothing else going on is the collection's art if and only if every tile's blob is in the store |
| MosaicBlobs.ComposesOtherIffSpoiled | server/ctrlsubsonic/covermosaic.go:36-119 | composed alone, there is a mosaic other than the collection's art if and only if the blob of one of its tiles is missing and some album of the collection has art that can be read |
| MosaicBlobs.SpoiledGoesStale | server/ctrlsubsonic/handlers_raw.go:95-151 | from every reachable state with nothing pending in which that is so and no mosaic is cached, a further request ends with a stale one in the cache |
| MosaicBlobs.MosaicsCanGoStale | server/ctrlsubsonic/handlers_cover_manage.go:318-353 | a run of one set, one clear and one getCoverArt request ends with nothing pending and a stale mosaic in the cache |
| CoverNames.PrefixIsOwn | server/ctrlsubsonic/handlers_raw.go:574-587 | a cover's file name starts with an id and a dash if and only if the id is the cover's |
| CoverNames.MatchesIsMembership | server/ctrlsubsonic/handlers_raw.go:577-592 | the prefix and suffix test picks a cover's file if and only if its id is one of those purged |
| CoverNames.MatchesIs | server/ctrlsubsonic/handlers_raw.go:577-592 | of any files at all, a purge picks those whose name is a purged id, a dash, anything, a dot and a format |
| CoverNames.IdStringSays | server/ctrlsubsonic/specid/ids.go:23-86 | an id's string starts with its kind and goes on with the decimal number of its row |
| CoverNames.FileNameInjective | server/ctrlsubsonic/handlers_raw.go:154-156 | covers with different id, size or format have different file names |
| CoverNames.PurgeIsPurge | server/ctrlsubsonic/handlers_raw.go:562-602 | on the names of any set of covers a purge removes exactly the covers of the purged ids |
| CoverNames.CoverDir.PurgeCachedCovers | server/ctrlsubsonic/handlers_raw.go:562-602 | the loop removes exactly the files that match and touches no other |
| CoverNames.CoverDir.FindCachedCover | server/ctrlsubsonic/handlers_raw.go:158-169 | the first format in their order that has a file, or none if no format has |
| Heal.OrphanStale | db/heal.go:17-30 | the first UPDATE unlinks exactly the rows whose album is gone or has another path |
| Heal.Relink | db/heal.go:32-54 | the second UPDATE links every unlinked row to the album at its path, in any row order, and reports which |
| Heal.HealAlbumRefs | db/heal.go:44-57 | from any links, each row ends linked to exactly the lookup of its path; the result counts the rows relinked to an album they were not linked to |
| Heal.HealedLinks | db/heal.go:44-57 | healing twice is healing once; afterwards no two rows with different snapshots share an album |
| Heal.MidwayIsNotStale | db/heal.go:32-54 | in every intermediate state each linked row is linked to the album at its own path |
| Heal.NoRowOrderBreaksTheIndex | db/migrations.go:1105-1116 | no intermediate state of the relinking UPDATE, whichever rows are done first, breaks the partial unique index on album_id |
| Heal.SyncAlbumCoverOverrides | db/heal.go:72-89 | album by album, the override columns become those of the linked override, and are cleared where a hash stands without one |
| Heal.SyncedIsInSync | db/heal.go:72-89 | the columns equal the join if and only if no album without an override has an extension and no hash |
| Heal.HealAlbumCoverOverrides | db/heal.go:59-70 | the healed links and the synced columns, together |
| Heal.HealCollectionAlbums | db/heal.go:93-95 | the same healing for collection entries |
| Overrides.SetAlbumCoverOverride | server/ctrlsubsonic/handlers_cover_manage.go:271-302 | upsert by path, link, publish the columns, drop the replaced blob if no row names it |
| Overrides.ClearAlbumCoverOverride | server/ctrlsubsonic/handlers_cover_manage.go:306-334 | delete the row, clear the columns, drop its blob if no row names it; nothing without a row |
| Overrides.DropUnreferencedCover | server/ctrlsubsonic/handlers_cover_manage.go:338-353 | a blob goes exactly when it is not the one kept and no override row names its hash |
| Collections.SetAlbums | collection/collection.go:32-64 | the collection's rows become the requested albums that exist, at positions from zero, each with a snapshot of its path; other collections stay |
| Collections.ExistingIsKept | collection/collection.go:32-64 | the ids kept are those at the positions of all requested ids with a row, in their order, repeated ones included |
| Collections.AlbumIDs | collection/collection.go:68-82 | the linked albums in position order |
| Identity.SetKeepsInv | server/ctrlsubsonic/handlers_cover_manage.go:271-302 | a set request refines one update of a map from folder path to cover |
| Identity.ClearKeepsInv | server/ctrlsubsonic/handlers_cover_manage.go:306-334 | a clear request refines one removal from that map |
| Identity.SetListKeepsInv | collection/collection.go:32-64 | replacing a collection's albums refines replacing a list of folder paths |
| Identity.DropListKeepsInv | server/ctrlsubsonic/handlers_collection.go:152-164 | deleting a collection refines removing its list |
| Identity.DeletesUnlink | db/db.go:417-419 | deleting album rows drops the links to them, and no other link, path or cover |
| Identity.RescanKeepsInv | scanner/scanner.go:126-133 | a rescan that keeps, deletes and re-creates album rows changes neither the map nor the lists |
| Identity.RunKeepsInv | scanner/scanner.go:126-133 | the tables refine the map and the lists after any sequence of set, clear, list changes and rescans |
| Identity.LinkedIdsResolve | collection/collection.go:68-82 | AlbumIDs is the stored list of paths, resolved and in order, without the folders that are gone |
| Identity.TablesAreTheModel | db/heal.go:44-95 | after any run: each album's columns are the map at its path, AlbumIDs is the list restricted to existing folders, the blobs are exactly those the map names (albums that are gone and shared hashes included), and links are unique |
| Identity.DroppedIsExact | covers/covers.go:106-115 | dropping the unreferenced leaves exactly the covers in use |
| Walk.FoldersAre | scanner/scanner.go:325-340 | a visit finds or makes the rows of the folder and the folder above, sets the folder's cover and parent, sees both, and changes no other row |
| Walk.UpdatedProgress | scanner/scanner.go:348-416 | writing the outdated files leaves a row for each file, written now or not older than it, and changes, adds or sees no other track |
| Walk.ScannedDirDone | scanner/scanner.go:287-428 | the whole visit: rows, tracks and both seen sets, and nothing written when a file's tags cannot be read |
| Walk.WalkedKeepsInv | scanner/scanner.go:102-106 | over any walk the unique indexes hold, rows keep path and override, new ones have no override, and seen tracks are in seen albums |
| Walk.PutTitles | scanner/scanner.go:486-515 | writing a folder's first track gives its album genres only with a title: blank tags fall back to a fixed name |
| Walk.WalkedKeepsKeys | scanner/scanner.go:462-570 | over any walk no link of an album or track to an artist or genre dangles, no album's parent does, and every album with genres has a title |
| Tagging.PutSays | scanner/scanner.go:486-570 | writing a file leaves exactly its genres and credits on its track, and of the first file its title, artist, credits and genres on the album, blank ones as the fixed names; no other track or album is touched |
| Tagging.VisitTells | scanner/scanner.go:287-428 | a visit does so for every file that has to be read, if all of these can be, and leaves all other tracks and albums their tags |
| TagWalk.WalkTellsTags | scanner/scanner.go:102-106 | so does a walk over a tree that does not change: by the rows before it, each file that had to be read has its own tags, and all else has those it had |
| ScanTags.ScanTellsTags | scanner/scanner.go:102-124 | after a scan that keeps what it sees, every file that had to be read and could be is there as a track with its own genres and credits, and its album has the first file's |
| ScanTags.ScanLeavesTags | scanner/scanner.go:102-124 | whatever else a scan leaves has the tags it had, but for albums without a track |
| ScanSteps.Scanner.FirstOrCreateParent | scanner/scanner.go:325-329 | finds the row at the parent's triple or inserts it |
| ScanSteps.Scanner.PopulateAlbumBasics | scanner/scanner.go:628-650 | writes only when cover or parent differ |
| ScanSteps.Scanner.FindTracks | scanner/scanner.go:346-355 | maps each of the folder's files to its row and sees those rows |
| ScanSteps.Scanner.FindOutdated | scanner/scanner.go:364-387 | collects in order the files that are new, newer than their row, or met on a full scan |
| ScanSteps.Scanner.WriteTracks | scanner/scanner.go:409-416 | writes the collected files in order |
| ScanSteps.AppliedIsUpdated | scanner/scanner.go:364-416 | collecting first and writing then is the same as writing each file as it is met |
| ScanSteps.Scanner.ScanDir | scanner/scanner.go:287-428 | carries out one visit |
| ScanSteps.Scanner.Walk | scanner/scanner.go:102-106 | carries out the walk |
| Clean.Chunks | db/db.go:154-169 | the chunks are non-empty, at most 999 long, full but for the last, and concatenate to the ids |
| Clean.DoomedByParent | db/db.go:352 | a row is deleted exactly when it is named or its parent is deleted |
| Clean.DoomedInChunks | db/db.go:154-169 | deleting in two chunks, cascades included, deletes what one DELETE of both would |
| Clean.CleanAlbumsRemovesTheUnseen | scanner/scanner.go:918-938 | cleanAlbums keeps exactly the seen albums if and only if the seen set is closed under parents |
| Clean.CleanRemovesTheUnseen | scanner/scanner.go:896-938 | cleanTracks and cleanAlbums together remove exactly the unseen rows |
| Clean.CleanGenresKeepsTrackGenres | scanner/scanner.go:1019-1060 | cleanGenres loses a track's genre if and only if one is on albums but on none with tracks |
| Clean.AlbumsKeepKeys | db/db.go:352 | the cascade of cleanAlbums leaves no row whose album, parent, artist or genre is gone |
| Clean.TracksKeepTheirs | scanner/scanner.go:896-1060 | a track that the six steps leave keeps its row, its credits and its genres |
| Clean.AlbumsKeepTheirs | scanner/scanner.go:940-997 | an album left with a track keeps its row, credits and genres; one left without has no title, artist, credit or genre, and the rest of its row |
| Clean.OthersAreNeeded | scanner/scanner.go:999-1097 | the artists and genres left are exactly those that a credit or a genre link left names, the bookmarks exactly those whose track or episode is there |
| Clean.CleanedIsTidy | scanner/scanner.go:107-124 | on tables as a walk leaves them: after the six steps every artist has a credit, every genre is on a track or on an album with tracks, no bookmark dangles, no foreign key dangles, every album with genres has a title, and no genre of a surviving track is gone |
| Clean.CleanedTwice | scanner/scanner.go:107-124 | running the six steps again with the same seen rows changes nothing |
| CleanSteps.CleanTracks | scanner/scanner.go:896-916 | chunk by chunk, deletes the unseen tracks and what cascades from them |
| CleanSteps.Cascade | db/db.go:352 | one DELETE with its cascade removes exactly the rows that are doomed |
| CleanSteps.CleanAlbums | scanner/scanner.go:918-938 | chunk by chunk, deletes the unseen albums, their descendants and all their tracks |
| CleanSteps.CleanAlbumMetadata | scanner/scanner.go:940-997 | clears title, artist, credits and genres of albums without tracks |
| CleanSteps.CleanArtists | scanner/scanner.go:999-1017 | deletes the artists without a credit |
| CleanSteps.CleanGenres | scanner/scanner.go:1019-1060 | deletes the unused genres, then those only on albums without tracks |
| CleanSteps.CleanBookmarks | scanner/scanner.go:1062-1097 | deletes bookmarks whose track or episode is gone |
| CleanSteps.CleanAll | scanner/scanner.go:107-124 | the six steps in their order |
| Rescan.WalkSees | scanner/scanner.go:331-355 | the seen albums are exactly the walked folders and those right above them, the seen tracks exactly their files |
| Rescan.WalkSetsParents | scanner/scanner.go:628-650 | after the walk each walked folder's row names the row of the folder above as its parent |
| Rescan.ClosedIffSheltered | scanner/scanner.go:256-340 | the parents of seen rows are seen if and only if, before the walk, no row that is met only as the folder above a walked one has a parent that is not met |
| Rescan.NoneLeftOutShelters | scanner/scanner.go:256-285 | if no folder between a walked one and its music directory is left out, there is no such row |
| Rescan.WalkStaysErrorFree | scanner/scanner.go:380-407 | a file that did not have to be read before the walk does not have to be read later in it |
| Rescan.WalkSettles | scanner/scanner.go:380-391 | when the files that have to be read can be, after the walk every file has a row not older than it, and every folder's row its cover and parent |
| Rescan.SettledWalk | scanner/scanner.go:380-391 | an incremental walk over settled folders changes no row |
| Scans.ScanKeepsOk | scanner/scanner.go:102-124 | a scan, whatever it walks over or leaves out, keeps the unique indexes, the foreign keys, the titles of albums with genres, and music directories without a parent |
| Scans.RunKeepsOk | scanner/scanner.go:102-124 | these hold after any sequence of scans and changes to overrides, bookmarks and episodes, from an empty database on |
| Scans.ScanTidies | scanner/scanner.go:107-124 | after any such sequence that ends with a scan, nothing is left that nothing refers to, nothing refers to what is gone, and no track that is left has lost a genre of those the walk wrote |
| Scans.ScanKeepsSeenIffSheltered | scanner/scanner.go:102-124 | a scan keeps exactly the rows it has seen if and only if no row that was met only as the folder above a walked one had a parent that is not met |
| Scans.NoneLeftOutKeepsSeen | scanner/scanner.go:102-124 | a scan that leaves no folder out deletes exactly the rows it has not seen |
| Scans.UnshelteredGoes | scanner/scanner.go:276-279 | a row with such a parent takes every folder walked right below it with it, seen rows and their tracks |
| Scans.LeftOutParentDeletesSeen | scanner/scanner.go:276-279 | an input: only the last folder of /m/a/b/c is walked, its row is seen, and the clean steps delete it |
| Scans.SecondScanChangesNothing | scanner/scanner.go:102-124 | after a scan that could read what it had to and kept what it saw, an incremental scan of the unchanged tree sees the same albums and tracks and changes no modelled column of any table |
| Scans.ScanIsRescan | scanner/scanner.go:126-133 | what any scan leaves of the album rows, folders left out included, is what the healing counts on |
| ScanLookup.ScannedFileIsFound | server/ctrlsubsonic/specidpaths/specidpaths.go:41-101 | after such a scan, Lookup of a file's path gives the track of that file, and locating it gives the path back |
| Artists.ArtistTable.PopulateArtist | scanner/scanner.go:696-731 | the row with the MBID, else the nameless-id row of the name adopted, else a new row; by name alone the oldest row of the name |
| Artists.CreditGoesToItsName | scanner/scanner.go:696-731 | an MBID that a row has decides, and nothing changes; else a row of the credit's name without one is given it, or a new row of that name; without an MBID the oldest row of the name, or a new one; no other row changes |
| Artists.RowsWereCredited | scanner/scanner.go:696-731 | over any credits and deletions from an empty table, every row has the name and the MBID of some one credit |
| Artists.RowsLiveUntilDeleted | scanner/scanner.go:999-1017 | a row is there exactly until it is deleted |
| Artists.PopulatedFinds | scanner/scanner.go:696-731 | the row returned has the MBID asked for, or is the oldest of its name |
| Artists.PopulatedKeepsInv | scanner/scanner.go:696-731 | at most one row per MBID, and a row without one is the only row of its name |
| Artists.RunKeepsInv | scanner/scanner.go:999-1017 | both hold after any credits and any deletions |
| Artists.GoneStaysGone | scanner/scanner.go:999-1017 | a deleted row's id never comes back |
| Artists.MbidNeverMoves | scanner/scanner.go:713-731 | as long as its row lives, an MBID stays on that row and on no other |
| Artists.CollectMbids | scanner/scanner.go:475-484 | the map holds the first MBID each name has anywhere on the track |
| Artists.FirstMbidIsFirst | scanner/scanner.go:475-484 | that MBID is the first credit's of the name that has one, or none if none has |
| Artists.ResolvedMeans | scanner/scanner.go:475-484 | a credit's own MBID decides; without one the first its name has on the track; without that the oldest row of its name |
| Artists.StaysResolved | scanner/scanner.go:475-484 | later credits of a track do not change what an earlier one resolved to |
| Artists.ArtistTable.PopulateTrackArtists | scanner/scanner.go:486-570 | when all credits are written, each still resolves to the row with its wanted MBID or the oldest row of its name |
| Artists.OneRowPerName | scanner/scanner.go:475-484 | credits of one name without an MBID of their own are one row |
| Artists.PairCredits | tags/tags.go:209-226 | the non-blank names in order, each with its own credit and, only when the counts match, its own MBID |
| TextTree.LineSaysEdge | texttree/texttree.go:31-44 | a line with two names and a tab between them, and any white space around them, is an edge from the first to the second |
| TextTree.LineSaysNothing | texttree/texttree.go:31-44 | comments, blank lines and lines without a tab are none |
| TextTree.LinesSayEdges | texttree/texttree.go:30-53 | the edges of a file are those of its lines, in order |
| TextTree.SilentLine | texttree/texttree.go:30-53 | a line that says nothing may be left out |
| TextTree.ReadEdges | texttree/texttree.go:25-54 | reading stops exactly at the first child named twice, and otherwise the maps hold the edges |
| TextTree.CheckCycle | texttree/texttree.go:70-85 | terminates, and fails exactly for a name whose chain of parents repeats |
| TextTree.AcyclicIff | texttree/texttree.go:59-63 | no name fails the check if and only if the edges have no cycle |
| TextTree.KidIsNew | texttree/texttree.go:87-98 | the stack never takes a name a second time |
| TextTree.CollectDescendants | texttree/texttree.go:87-98 | terminates, and lists exactly the names reachable from the name, itself included, each once |
| TextTree.ParseReader | texttree/texttree.go:20-68 | accepts exactly the files that can be read, name each child once and have no cycle, with the error of each other case; the tree lists each name's descendants |
| Genres.InheritedNames | scanner/scanner.go:438-455 | the tree's names that are not tagged and have a tagged descendant |
| Genres.ClosureIsInherited | scanner/scanner.go:438-455 | tagged and inherited names are together the reflexive ancestor closure of the tagged ones |
| Genres.GenreRows | scanner/scanner.go:818-836 | each id once, marked inherited exactly when it is not direct |
| Genres.GenreDb.PopulateGenres | scanner/scanner.go:733-752 | the ids of the trimmed non-blank names, rows made where missing, others kept |
| Genres.GenreDb.PopulateTrackGenres | scanner/scanner.go:431-460 | the track's rows are the ancestor closure of its tags, each genre once, with the mark exactly on those not tagged |
| Genres.EdgesHaveCleanNames | texttree/texttree.go:31-44 | the tree's names are trimmed and not blank |
| Paths.HasPrefixIsPrefix | fileutil/fileutil.go:66-68 | on clean paths HasPrefix is the prefix order on names, except that nothing is below the root directory |
| Paths.JoinRel | playlist/playlist.go:142-144 | Join of a directory with Rel from it gives the path back |
| Paths.CleanTwice | server/ctrlsubsonic/specidpaths/specidpaths.go:46-53 | cleaning any path leaves names, after so many ".." if it is relative, and what is of that form is left as it is |
| SpecIdPaths.MusicDirRelative | scanner/scanner.go:1138-1146 | the first music directory that has the path in it, and the way from there |
| SpecIdPaths.ParentTripleIsOwn | scanner/scanner.go:325-333 | the triple a folder is given as a parent is the one it has itself |
| SpecIdPaths.TripleInjective | scanner/scanner.go:333-336 | different folders have different triples |
| SpecIdPaths.PathOfScanned | db/db.go:292-302 | a scanned track's path is its folder's path and its file name |
| SpecIdPaths.SameDir | server/ctrlsubsonic/specidpaths/specidpaths.go:77-86 | the scanner and Lookup choose the same music directory |
| SpecIdPaths.Lookup | server/ctrlsubsonic/specidpaths/specidpaths.go:41-101 | not absolute, episode, station, track or nothing, in that order, with the row it names |
| SpecIdPaths.LookupFindsScanned | server/ctrlsubsonic/specidpaths/specidpaths.go:24-101 | for nested music directories in any order, Lookup of what Locate gives for a scanned track is that track if and only if the podcast directory is not a string prefix of the path |
| SpecIdPaths.LookupFindsEpisode | server/ctrlsubsonic/specidpaths/specidpaths.go:46-62 | Lookup of a completed episode's path is an episode with that path |
| SpecIdPaths.LookupFindsStation | server/ctrlsubsonic/specidpaths/specidpaths.go:65-75 | a station's address is looked up as a station with it if and only if the podcast directory is not a string prefix of it |
| SpecIdPaths.LocateFinds | server/ctrlsubsonic/specidpaths/specidpaths.go:24-38 | tracks, completed episodes and stations have a location, and nothing else |
| SpecIdPaths.LookupIsRight | server/ctrlsubsonic/specidpaths/specidpaths.go:41-101 | whatever Lookup finds for a clean absolute path is a track or an episode with that very path |
| Lines.ScanIsReadable | playlist/playlist.go:128-132 | the scanner gives the lines of any text up to the first that does not fit its buffer, each without a final carriage return |
| Lines.ScanPrinted | playlist/playlist.go:128-132 | lines that are printed are read back up to the first that does not fit the scanner's buffer |
| Lines.CrsAreDropped | playlist/playlist.go:128-132 | lines ended by a carriage return and a newline are read like lines ended by a newline |
| Lines.CharLenIsUtf8 | playlist/playlist.go:128-132 | the length that has to fit the buffer is counted in bytes: a character counts as many as its shortest UTF-8 encoding has |
| Strconv.UnquoteQuote | playlist/playlist.go:270-282 | every string comes back from its quoted form, whatever is printable |
| Strconv.QuotePlain | playlist/playlist.go:270-272 | what is printable stays as it is between quotes, but for quotes and backslashes, which get a backslash |
| Strconv.UnquoteRaw | playlist/playlist.go:274-282 | what a line has between backquotes is meant as it stands, but for carriage returns |
| Strconv.HexValueIs | playlist/playlist.go:274-282 | a hexadecimal digit is read in either case, and nothing else is one |
| Strconv.UnquoteOctal | playlist/playlist.go:274-282 | an escape of three octal digits is read if its value is at most 255, and is an error otherwise |
| Strconv.UnquoteSingle | playlist/playlist.go:274-282 | between single quotes exactly one character is read, which is no quote, backslash or newline by itself |
| Playlists.DecodeEncode | playlist/playlist.go:270-282 | an attribute line decodes to its name and value |
| Playlists.Store.Read | playlist/playlist.go:88-151 | the playlist that the file's lines say, read one by one |
| Playlists.Store.Write | playlist/playlist.go:153-209 | the file holds the kept comments, the three attributes and the items, and no other file changes |
| Playlists.PathsAreRead | playlist/playlist.go:136-148 | an absolute line is the item it says, a relative one is read from the playlist's directory |
| Playlists.ItemReadsBack | playlist/playlist.go:136-206 | an item is read back as it was if and only if it is a clean absolute path; one that is not absolute comes back absolute |
| Playlists.StreamIsLost | playlist/playlist.go:136-206 | an input: the address of a stream, in any directory, comes back as a path below it |
| Playlists.ReadAfterWrite | playlist/playlist.go:88-209 | Read after Write gives the same name, comment, visibility and items if and only if every written line fits and every item is a clean absolute path |
| Playlists.CommentsComeFirst | playlist/playlist.go:177-206 | a rewritten file begins with the old lines, up to the first that is too long, that start with # but not with #GONIC-, in order, and goes on with the playlist's own lines |
| Playlists.ForeignCommentsStay | playlist/playlist.go:177-195 | among all lines of a rewritten file, however long, other programs' comments are exactly those before the first line that did not fit, in order |
| Playlists.CommentsSurviveIff | playlist/playlist.go:177-195 | all comments survive, each losing at most a final carriage return, if and only if none is, or comes after, a line that does not fit |
| Playlists.CommentsAreLostOnce | playlist/playlist.go:177-206 | comments that survive one rewrite survive every later one |
| Playlists.LongLineLosesComment | playlist/playlist.go:177-195 | an input: a comment after a line of 65536 bytes is gone after a rewrite |
| Playlists.AttrsAreNotRepeated | playlist/playlist.go:177-206 | among all lines of a rewritten file each attribute is there once |
| CollectionTracks.ExpansionFollowsAlbums | server/ctrlsubsonic/spec/queries.go:192-199 | any sorted enumeration of the join is the concatenation of the albums' own listings in AlbumIDs order, albums that are in it twice included |
| CollectionTracks.SortedIsOrdered | server/ctrlsubsonic/spec/queries.go:197 | rows come by entry, then disc, then track number, then filename, a missing number as 0 |
| CollectionTracks.StringLessIs | server/ctrlsubsonic/spec/queries.go:197 | filenames compare by the first place where they part, and a shorter one first |
| CollectionTracks.IncreasingIsUnique | server/ctrlsubsonic/spec/queries.go:197 | the ORDER BY leaves one order |
| CollectionTracks.StatsMatchExpansion | collection/collection.go:86-97 | the count and the sum over the join, in any order, are those of the expansion |
| CollectionTracks.DurationIsSum | collection/collection.go:86-97 | the duration is the sum of the tracks' lengths |
| CollectionTracks.AttachAlbums | server/ctrlsubsonic/handlers_collection.go:259-278 | the album list keeps the order of the ids, without those that have no row |
| DirCache.Cache.WalkDir | cache/cache.go:53-70 | every file once, and their total size |
| DirCache.SortByTime | cache/cache.go:72-74 | a permutation of the files, oldest first |
| DirCache.Cache.Eject | cache/cache.go:41-85 | what is left is within the limit; what went is no newer than what stayed and no more than had to go; the empty list is indexed if and only if the limit is negative |
| DirCache.EjectedTwice | cache/cache.go:76-82 | a second Eject removes nothing |
| SizedWriter.Writer.Write | server/ctrlsubsonic/handlers_raw.go:527-538 | the client gets what there is room for, and the caller is told all was written |
| SizedWriter.Writer.Pad | server/ctrlsubsonic/handlers_raw.go:540-546 | the missing bytes are zeros |
| SizedWriter.ClipMore | server/ctrlsubsonic/handlers_raw.go:527-538 | cutting chunk by chunk is cutting the whole |
| SizedWriter.Stream | transcode/transcoder_caching.go:64-68 | for any chunking the cache file gets the whole output and the client its start; it fails exactly when the connection breaks before that |
| SizedWriter.ServeStream | server/ctrlsubsonic/handlers_raw.go:392-408 | the client gets exactly `size` bytes, the output's start and then zeros |

## Left out

- HTTP parameter parsing, permissions, rendering, the admin interface and all network clients.
- Image decoding, resizing and hashing: an image is the source it was made from, and a hash stands for the bytes.
- Playlist, artist, track and podcast covers in the cover cache; webp covers, which decode but are never saved.
- A scan running beside cover requests; the purge of mosaics at the end of a scan.
- A reader of a cover file that another request is still saving: files hold the set of images being written.
- A client whose connection breaks while a cached transcode is copied to it; a transcoder that is killed, after which the stream is still padded.
- The collection's own columns: its name, comment, owner and visibility.
- The watcher's additive scans, symbolic links, the choice of a folder's cover and the exclude pattern: a walk is given as the folders it visits.
- Columns of albums and tracks that no modelled property reads, disc titles, labels, stars and ratings.
- The names behind the artist and genre ids of a file's tags inside `Walk`: the rows that they are found or made as are given there; `Artists` and `Genres` say which those are.
- Old playlists' time stamps, the user id in a playlist's path, and `SafeJoin`.
- Bytes that are not valid UTF-8: text is a sequence of characters, and `\x` and octal escapes from 0x80 up stand for one.
- Machine integer widths: sizes, counts and times are unbounded.
- Sorting itself in `DirCache`: `SortByTime` is one way to sort, and only its contract is used.

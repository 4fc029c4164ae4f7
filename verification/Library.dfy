/** The rows that the scanner, the healing code and the request handlers share. */
module Library {
  import opened Options

  /** Where a folder is: `root_dir`, `left_path`, `right_path`. */
  datatype Triple = Triple(root: string, left: string, right: string)

  /** A stored cover. The hash is that of the encoded bytes, so it also fixes the extension. */
  datatype Art = Art(hash: string, ext: string)

  const NoArt := Art("", "")

  /** An album row. `art` is the denormalised pair `cover_override_hash`, `cover_override_ext`. */
  datatype Album = Album(path: Triple, parent: Option<nat>, cover: string, art: Art, title: string, artist: string)

  datatype Track = Track(album: nat, filename: string, updatedAt: int)

  /** The parents of albums are albums. */
  ghost predicate ParentsExist(albums: map<nat, Album>) {
    forall a | a in albums && albums[a].parent.Some? :: albums[a].parent.value in albums
  }

  predicate IsTitled(album: Album) {
    album.title != "" || album.artist != ""
  }

  /** Every link is from one of `lefts` to one of `rights`, as foreign keys ask of a table of pairs of ids. */
  predicate References(links: set<(nat, nat)>, lefts: set<nat>, rights: set<nat>) {
    forall x | x in links :: x.0 in lefts && x.1 in rights
  }

  /** A row that refers to an album by id and keeps a snapshot of the album's path. */
  datatype Ref<+T> = Ref(album: Option<nat>, path: Triple, data: T)

  /** The unique index of collection_albums. */
  datatype Slot = Slot(coll: nat, position: nat)

  /** A table whose rows refer to albums. */
  class Table<K(!new, ==), T(!new)> {
    var rows: map<K, Ref<T>>

    constructor ()
      ensures rows == map[]
    {
      rows := map[];
    }
  }

  /** The tables and the cover store, as the handlers and the scanner see them. */
  class Db {
    var albums: map<nat, Album>
    const overrides: Table<Triple, Art>
    const entries: Table<Slot, ()>
    var blobs: set<Art>

    constructor ()
      ensures fresh(overrides) && fresh(entries)
      ensures albums == map[] && overrides.rows == map[] && entries.rows == map[] && blobs == {}
    {
      albums, blobs := map[], {};
      overrides := new Table();
      entries := new Table();
    }

    function View(): Tables
      reads this, overrides, entries
    {
      Tables(albums, overrides.rows, entries.rows, blobs)
    }
  }

  datatype Tables = Tables(
    albums: map<nat, Album>,
    overrides: map<Triple, Ref<Art>>,
    entries: map<Slot, Ref<()>>,
    blobs: set<Art>)

  /** The album table's unique index on the path triple. */
  ghost predicate UniquePaths(albums: map<nat, Album>) {
    forall a, b | a in albums && b in albums && albums[a].path == albums[b].path :: a == b
  }

  /** SELECT albums.id FROM albums WHERE the triple matches. */
  ghost function Lookup(albums: map<nat, Album>, path: Triple): (id: Option<nat>)
    ensures id.Some? ==> id.value in albums && albums[id.value].path == path
    ensures id.None? ==> forall a | a in albums :: albums[a].path != path
  {
    if a :| a in albums && albums[a].path == path then Some(a) else None
  }

  lemma LookupFinds(albums: map<nat, Album>, a: nat)
    requires UniquePaths(albums) && a in albums
    ensures Lookup(albums, albums[a].path) == Some(a)
  {
  }
}

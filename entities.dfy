/** The catalogue's value types: `AlbumArtist`, `Album` and `Track` are Swift
    structs, so they are datatypes here. A `UUID` is a natural number. */
module Entities {
  import opened Wrappers

  /** The bytes of an embedded front-cover picture that decoded to an image. */
  datatype Artwork = Artwork(data: seq<bv8>)

  datatype Track = Track(id: nat, url: string, title: string, trackNumber: int, duration: real)

  datatype Album = Album(id: nat, title: string, year: int, genre: string, tracks: seq<Track>, artwork: Option<Artwork>)

  datatype AlbumArtist = AlbumArtist(id: nat, name: string, albums: seq<Album>)
}

/** The `cards` table: the static catalog of collectible cards. */
module Catalog {
  import opened Text

  /** A raster image as stored in the `image` BYTEA column. */
  type Blob = seq<bv8>

  /** One row of `cards(id, name, date, series, image, notes, series_emoji)`. */
  datatype Card = Card(
    id: string,
    name: string,
    date: string,
    series: string,
    image: Blob,
    notes: Option<string>,
    seriesEmoji: Option<string>)

  /** `id` is the table's primary key: no two rows share it. */
  predicate UniqueIds(cards: seq<Card>) {
    forall i, j :: 0 <= i < j < |cards| ==> cards[i].id != cards[j].id
  }
}

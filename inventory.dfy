/** The `inventory` table, keyed by `(user_id, card_id)`, the upsert a grab
    performs on it, and the text lines of a user's inventory listing. */
module Inventory {
  import opened Text
  import Emoji

  type UserId = int
  type CardId = string
  type Key = (UserId, CardId)

  /** The non-key columns of one inventory row; `grabbedTime` is a logical clock. */
  datatype Entry = Entry(quantity: int, grabbedTime: int)

  /** The table: the primary key makes it a map. */
  type Table = map<Key, Entry>

  /** Every row holds at least one copy. */
  ghost predicate QuantitiesPositive(t: Table) {
    forall k :: k in t ==> t[k].quantity >= 1
  }

  /** `INSERT ... VALUES (user, card, 1, now) ON CONFLICT (user_id, card_id)
      DO UPDATE SET quantity = quantity + 1, grabbed_time = now`. */
  function Upsert(t: Table, user: UserId, card: CardId, now: int): (t': Table)
    ensures (user, card) !in t ==> (user, card) in t' && t'[(user, card)] == Entry(1, now)
    ensures (user, card) in t ==> (user, card) in t' && t'[(user, card)] == Entry(t[(user, card)].quantity + 1, now)
    ensures t'.Keys == t.Keys + {(user, card)}
    ensures forall k :: k in t && k != (user, card) ==> t'[k] == t[k]
    ensures |t'| == if (user, card) in t then |t| else |t| + 1
    ensures QuantitiesPositive(t) ==> QuantitiesPositive(t')
    ensures forall k :: k in t ==> t'[k].quantity >= t[k].quantity
  {
    var k := (user, card);
    if k in t then t[k := Entry(t[k].quantity + 1, now)] else t[k := Entry(1, now)]
  }

  /** One successful grab: who, which card, when. */
  datatype Grab = Grab(user: UserId, card: CardId, time: int)

  /** The table after a sequence of grabs, oldest first. */
  function ApplyGrabs(t: Table, grabs: seq<Grab>): Table
    decreases |grabs|
  {
    if grabs == [] then t
    else ApplyGrabs(Upsert(t, grabs[0].user, grabs[0].card, grabs[0].time), grabs[1..])
  }

  /** How many of `grabs` were of key `k`. */
  function GrabsOf(grabs: seq<Grab>, k: Key): nat
    decreases |grabs|
  {
    if grabs == [] then 0
    else (if (grabs[0].user, grabs[0].card) == k then 1 else 0) + GrabsOf(grabs[1..], k)
  }

  /** A row's quantity is its old quantity (zero when absent) plus the number
      of grabs of its key: a repeat grab counts again, it never adds a row. */
  lemma {:induction false} ApplyGrabsCounts(t: Table, grabs: seq<Grab>, k: Key)
    ensures k in ApplyGrabs(t, grabs) <==> k in t || GrabsOf(grabs, k) > 0
    ensures k in ApplyGrabs(t, grabs) ==>
      ApplyGrabs(t, grabs)[k].quantity == (if k in t then t[k].quantity else 0) + GrabsOf(grabs, k)
    decreases |grabs|
  {
    if grabs != [] {
      var g := grabs[0];
      ApplyGrabsCounts(Upsert(t, g.user, g.card, g.time), grabs[1..], k);
    }
  }

  /** One row of the listing query, in the order the query returns them
      (most recently grabbed first). */
  datatype InventoryRow = InventoryRow(
    cardId: CardId,
    quantity: int,
    series: string,
    name: string,
    releaseDate: string,
    seriesEmoji: Option<string>)

  /** The pieces of a listing line, left to right. */
  function LinePieces(row: InventoryRow, formatDate: string -> string): (ps: seq<string>)
    ensures |ps| == 10
  {
    ["`", IntToString(row.quantity), "x` ", Emoji.FormatEmoji(row.seriesEmoji), " ",
     "`" + row.cardId + "`", " " + row.series + " ", "**" + row.name + "**", " ",
     "`" + formatDate(row.releaseDate) + "`"]
  }

  /** One listing line: `` `{quantity}x` {emoji} `{id}` {series} **{name}** `{date}` ``.
      The date reformatting is a parameter. The line opens with a backtick
      and the quantity, which reads back from the digits that follow. */
  function FormatLine(row: InventoryRow, formatDate: string -> string): (line: string)
    ensures |line| > 1 && line[0] == '`'
    ensures row.quantity >= 0 ==> DigitsValue(LeadingDigits(line[1..])) == row.quantity
    ensures row.quantity < 0 <==> line[1] == '-'
  {
    var ps := LinePieces(row, formatDate);
    var count := ps[1];
    var rest := Concat(ps[2..]);
    assert Concat(ps) == "`" + (count + rest) by {
      assert ps[1..][1..] == ps[2..];
    }
    assert ps[2..][0] == "x` ";
    assert rest[0] == 'x';
    var line := Concat(ps);
    assert line[1..] == count + rest;
    if row.quantity >= 0 then
      LeadingDigitsOfConcat(count, rest);
      line
    else
      line
  }

  /** The line shows the card: its emoji, id, series, name and release date
      each occur in it, in the listing's delimiters. */
  lemma FormatLineShowsCard(row: InventoryRow, formatDate: string -> string)
    ensures Contains(FormatLine(row, formatDate), Emoji.FormatEmoji(row.seriesEmoji))
    ensures Contains(FormatLine(row, formatDate), "`" + row.cardId + "`")
    ensures Contains(FormatLine(row, formatDate), " " + row.series + " ")
    ensures Contains(FormatLine(row, formatDate), "**" + row.name + "**")
    ensures Contains(FormatLine(row, formatDate), "`" + formatDate(row.releaseDate) + "`")
  {
    var ps := LinePieces(row, formatDate);
    ConcatContains(ps, 3);
    ConcatContains(ps, 5);
    ConcatContains(ps, 6);
    ConcatContains(ps, 7);
    ConcatContains(ps, 9);
  }

  /** The loop that turns query rows into listing lines, one line per row,
      in the rows' order. */
  method BuildInventoryList(rows: seq<InventoryRow>, formatDate: string -> string)
    returns (lines: seq<string>)
    ensures |lines| == |rows|
    ensures forall i :: 0 <= i < |rows| ==> lines[i] == FormatLine(rows[i], formatDate)
  {
    lines := [];
    for i := 0 to |rows|
      invariant |lines| == i
      invariant forall j :: 0 <= j < i ==> lines[j] == FormatLine(rows[j], formatDate)
    {
      lines := lines + [FormatLine(rows[i], formatDate)];
    }
  }
}

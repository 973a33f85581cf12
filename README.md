# lovebot card bot: a Dafny model of its collection logic

lovebot is a Discord bot for collectible cards. A user runs `drop` to see
three random catalog cards under buttons labelled 1 to 3. The first click
claims the card for whoever clicked. `inventory` lists a user's cards ten
to a page, with previous and next buttons. `album <keyword>` finds one
series by keyword. It then shows the user's progress on that series, and
the series' cards four to a collage: owned cards in full colour, the rest
blurred.

The model covers the part of `main.py` that does not depend on Discord or
PIL:

- `text.dfy` (module `Text`): nullable text, Python's `isdigit`, `str(n)`,
  `needle in hay` and `"\n".join`.
- `catalog.dfy` (module `Catalog`): a row of the `cards` table.
- `emoji.dfy` (module `Emoji`): how `series_emoji` is shown.
- `inventory.dfy` (module `Inventory`): the `inventory` table as a map keyed
  by `(user_id, card_id)`, the grab upsert, and the listing lines.
- `pagination.dfy` (module `Pagination`): `PaginationView` as a class with a
  mutable `currentPage`, and the `inventory` command.
- `layout.dfy` (module `Layout`): the integer geometry of the drop strip and
  of the album collage, with image widths given.
- `drop.dfy` (module `Drop`): the `drop` command and `CardButton.callback`.
  The view's buttons are an array of records.
- `album.dfy` (module `Album`): series matching, the three-way decision,
  grouping by four, and the choice between original and blurred images.

Query results are inputs. The catalog is a `seq<Card>` listed in `id`
order. The series list is the result of `SELECT DISTINCT series`. The
inventory listing rows are given in the order the query returns them.
`random.sample` is a nondeterministic choice of three distinct catalog
positions (`:|`). Unicode normalisation and lower-casing are function
parameters. So are date reformatting, the width of a resized image and the
width of a caption.

The search does not ignore accents. The code applies only NFC
normalisation and lower-casing. NFC composes characters, it does not strip
accent marks, so a keyword without "ì" does not match a series name with
it. The model follows the code: the match is a substring test on
`norm(lower(...))` with `norm` left abstract.

## Model

| member | source | states |
|---|---|---|
| Text.NatToString | main.py:77 | `str(n)` is a non-empty string of decimal digits, with a leading `0` only for zero; it is one character long exactly for `n < 10`, so zero prints as `0` |
| Text.NatToStringRoundTrip | main.py:77 | reading the digits of `str(n)` back gives `n` |
| Text.NatToStringInjective | main.py:77 | distinct button indices give distinct labels |
| Text.IntToString | main.py:253 | `str(i)` starts with `-` exactly for negative `i`; the rest is a non-empty digit string that reads back as `abs(i)`, with no leading zero, and zero prints as `0` |
| Text.LeadingDigitsOfConcat | main.py:253 | a digit string followed by a non-digit is read back whole, so the quantity ahead of the `x` of a listing line is recoverable |
| Text.Join | main.py:196 | `"\n".join` of no items is empty, and otherwise starts with the first item |
| Text.SplitJoin | main.py:196 | splitting `"\n".join(items)` at its newlines gives `items` back when no item holds a newline: every item appears, in order, and nothing else |
| Text.ConcatContains | main.py:253 | every piece of a concatenation occurs in it |
| Text.JoinSeparatorCount | main.py:196 | joining items that hold no newline with `"\n"` puts exactly one newline between neighbouring items, so `n` lines show as `n` lines |
| Text.ContainsOccurrence | main.py:452 | `needle in hay` holds exactly when `needle` occurs at some position of `hay` |
| Emoji.FormatEmoji | main.py:248-251 | a non-empty all-digit value becomes `<:card:ID>`; a missing or empty value becomes the playing-card emoji; anything else is kept; the result is never empty (main.py:302-305 is the same code) |
| Emoji.AlbumEmoji | main.py:491-493 | the album header's two-step formatting gives the same result as FormatEmoji on every input |
| Emoji.FormatEmojiIdempotent | main.py:248-251 | formatting a formatted value changes nothing |
| Inventory.Upsert | main.py:92-98 | an absent key gets quantity 1; a present key gets exactly one more; both get the grab time; every other row is unchanged; at most one row is added; quantities stay positive and never decrease |
| Inventory.ApplyGrabsCounts | main.py:92-98 | after any sequence of grabs, a row exists exactly when it existed or was grabbed, and its quantity is its old quantity plus the number of grabs of that key |
| Inventory.FormatLine | main.py:238-253 | a listing line opens with a backtick and the quantity: for a non-negative quantity the digits that follow read back as the quantity, and a `-` follows exactly when it is negative |
| Inventory.FormatLineShowsCard | main.py:238-253 | the line shows the card: the formatted emoji, `` `id` ``, the series, `**name**` and `` `date` `` each occur in it |
| Inventory.BuildInventoryList | main.py:236-254 | one listing line per query row, in row order, each formatted from its row |
| Pagination.TotalPages | main.py:182 | the page count is the ceiling of `n / 10` |
| Pagination.PageItems | main.py:188-191 | the slice for page `p` holds at most 10 lines; it is `lines[10p ..]` cut at 10 lines or at the end; it is non-empty for every existing page |
| Pagination.LineOnItsPage | main.py:182-191 | line `i` is entry `i % 10` of page `i / 10`, and that page exists |
| Pagination.Navigate | main.py:204-207 | "previous" on page 0, "next" on the last page (or on an empty view) and any other button leave the page alone; every other press moves exactly one page; `0 <= page < total` is preserved |
| Pagination.PaginationView.constructor | main.py:177-182 | a new view is on page 0 with `ceil(n/10)` pages |
| Pagination.PaginationView.CurrentPageEmbed | main.py:188-199 | the title is "Bộ sưu tập của {author} 💕"; the header is "Page p/total" counted from one; the body is the page's lines joined by newlines; a valid view over a non-empty list never shows "No items found." |
| Pagination.PageBodySplits | main.py:188-196 | when no listing line holds a newline, a page's body splits back into exactly that page's lines, in order |
| Pagination.PaginationView.InteractionCheck | main.py:201-212 | the page moves as Navigate says, the view stays valid, the interaction is accepted and the page is redrawn |
| Pagination.InventoryCommand | main.py:214-260 | no rows gives the "nothing collected" reply and no view; otherwise a new view on page 0 over one formatted line per row |
| Layout.PasteOffsets | main.py:141-145 | the paste loop puts image `i` at the sum of the widths before it plus one gap per earlier image |
| Layout.OffsetStep | main.py:143-145 | each image starts exactly one gap after the previous one ends |
| Layout.NoOverlap | main.py:143-145 | with non-negative widths, neighbouring images do not overlap |
| Layout.LastImageEnd | main.py:407-435 | the last image ends at the sum of the widths plus one gap per neighbouring pair |
| Layout.StripFitsThreeCards | main.py:137-145 | for the three drop cards, the fixed extra 40 pixels is exactly two gaps of 20: the third card ends at the canvas edge |
| Layout.SlotWidths | main.py:388-404 | there are exactly four slots; slot `i` has the width of image `i` if there is one, the placeholder width otherwise |
| Layout.CaptionFor | main.py:428-433 | the caption text is "ID: id", drawn 5 pixels below the cards, centred under its slot up to one pixel of floor rounding |
| Layout.CreateCollage | main.py:380-437 | width is the four slot widths plus three spacings of 10; height is the card height plus 30; slot `i` is at its offset; each of the first `min(|ids|, 4)` slots gets a caption |
| Layout.CollageFitsFourSlots | main.py:407 | the fourth slot ends at the collage's right edge |
| Drop.Drop | main.py:111-158 | a catalog of fewer than 3 cards is refused with "Not enough cards in the database!" and no buttons; otherwise 3 cards at distinct positions, pairwise distinct ids when ids are unique, button `i` labelled `str(i+1)`, primary, enabled and bound to the `i`-th card, and the strip geometry of the three images |
| Drop.Claimed | main.py:84-89 | after a click on button `k`, that button is "success", every button is disabled, labels and bound cards are unchanged, other styles are unchanged |
| Drop.ClaimedHasOneWinner | main.py:84-89 | when all buttons were primary, exactly one button shows "success" after a claim |
| Drop.OfferThenClaim | main.py:77 | on an offered drop, a claim leaves no enabled button and one winner, bound to the selected card it was created for |
| Drop.Callback | main.py:80-99 | the array of buttons becomes Claimed of its old contents, and the table becomes the upsert of the clicking user's row for the bound card |
| Album.MatchingSeries | main.py:450-453 | the matched series are exactly those whose normalised lower-cased name contains the normalised lower-cased keyword; they keep their original order; no duplicates are introduced |
| Album.LookupSeries | main.py:455-464 | no match means not found; more than one match returns the whole match list; with a distinct series list it holds two different matching series; otherwise the one matching series is returned and no other series matches |
| Album.SeriesCards | main.py:467-472 | the series' cards are exactly the catalog cards of that series; the result is a subsequence of the catalog's rows, so catalog order is kept; there are as many as the series name occurs in the catalog's `series` column |
| Album.CollectedIds | main.py:476-483 | the collected ids are the series' card ids that the user has an inventory row for |
| Album.ProgressBounded | main.py:486-488 | the collected count never exceeds the number of cards in the series |
| Album.Groups | main.py:504-505 | there are `ceil(N/4)` groups; each holds 1 to 4 cards; all but the last hold exactly 4; their concatenation is the card list |
| Album.GroupIsSlice | main.py:504-505 | group `g` is the slice `cards[4g : 4g+4]`, clamped at the end |
| Album.SlotImageOf | main.py:510-513 | a card is shown from its original blob exactly when its id is collected, and blurred otherwise |
| Album.RenderGroup | main.py:506-517 | one slot per card of the group, in order, each with its card's id and its original or blurred image |
| Album.RenderAlbum | main.py:503-519 | one collage request per group of four, in order, each rendering its group |
| Album.AlbumCommand | main.py:439-525 | the reply follows LookupSeries; a unique match shows the series' card count, the collected count (at most the card count), the series emoji and one collage per group; a series without cards raises the IndexError, which cannot happen when the series list comes from the catalog |

## Left out

- Discord I/O is not modelled: messages, embeds, attachments, response edits, follow-ups, ephemeral notices, bot startup and environment loading. Replies are datatypes.
- Database connection pooling, table creation and SQL execution are not modelled. All query results are inputs, and the inventory table is a map.
- The `ORDER BY inventory.grabbed_time DESC` sort of the listing query, the `ORDER BY series` sort of the album's series query and the `ORDER BY id` sort of its card query are not modelled. Rows are given already in that order.
- The latent driver bugs are not modelled. These are `cursor.fetchall()` on the result of `conn.execute` in `drop` and `album`, the overwrites of `all_cards` and `collected_ids` that follow, and `async with conn.execute` in `memories`. The model uses the intended query results.
- The upsert as written probably never completes a claim; neither failure is modelled. The unqualified `quantity = quantity + 1` (main.py:96) is likely refused by PostgreSQL as an ambiguous column, because `EXCLUDED` is also in scope in `DO UPDATE SET`; SQLite accepts it, and the leftover `import aiosqlite` (main.py:173) suggests it was written for SQLite. If PostgreSQL refuses it, every click raises at main.py:92-98 before any row changes. If it accepts it, the upsert succeeds and the click raises at `await conn.commit()` (main.py:99), since asyncpg connections have no `commit`, and another click upserts again. Either way the callback never reaches `edit_message` or the follow-up (main.py:102-107), so the disabled buttons are never shown. Inventory.Upsert and Drop.Callback model the intended flow: the increment of the stored row, without the commit call.
- All PIL work is not modelled: decoding, resizing, blur, darkening, pasting, PNG encoding, font loading and text measurement. Images are blobs, and a blurred slot is only tagged `Blurred`.
- Floating-point widths are given integers. This covers `int(img.width * 500 / img.height)`, `int(target_height * aspect_ratio)` and `int(target_height * 0.7)` (280 for the album's height of 400).
- Layout.CaptionFor: the caption width from `textlength` is a float in the source and a given integer here.
- Drop.Drop: `random.sample` is a free choice of three distinct positions. Its uniform distribution is not modelled.
- Emoji.FormatEmoji: only ASCII `0`-`9` count as digits. Python's `isdigit` also accepts other Unicode digits, such as superscripts.
- Inventory.Upsert: the quantity is an unbounded integer. The 32-bit `INTEGER` column overflow after 2^31 grabs is not modelled.
- The date reformatting with `strptime`/`strftime` and its fallback is a function parameter.
- Unicode NFC normalisation and lower-casing are function parameters.
- A NULL `series` value would make `series[0].lower()` fail. The model's series are always strings.
- Text.SplitJoin: the round trip holds only for items without a newline. A card field holding a newline would make the page body ambiguous, and the model proves nothing about that case.
- Inventory.FormatLine: the `series`, `name` and `date` columns of a listing row are strings in the model. In the source they may be NULL, which the f-string prints as `None`.
- The cooldown command, the commented-out cooldown decorator and the `drop_error` handler are not modelled. The handler runs on every error `drop` raises, but with the decorator commented out its only branch, for `CommandOnCooldown`, never fires, so every error `drop` raises is dropped without a reply. View timeouts are not modelled either.
- The `view` and `memories` commands are not part of this model. Only `view`'s emoji formatting is covered, and it is the same code as the listing's.
- Concurrent near-simultaneous clicks are not modelled. Each click is one sequential call of Drop.Callback.
- The texts of the album's "not found" and "pick one" replies are not modelled. The replies carry the data they are built from.

/** The `album` command: find the one series a keyword names, then show the
    user's progress on it and the series' cards four to a collage, owned
    cards as they are and the others blurred. */
module Album {
  import opened Text
  import Catalog
  import Emoji
  import Inventory

  /** `norm(lower(keyword)) in norm(lower(series))`; Unicode normalisation
      and lower-casing are parameters. */
  predicate Matches(keyword: string, series: string, norm: string -> string, lower: string -> string) {
    Contains(norm(lower(series)), norm(lower(keyword)))
  }

  /** `a` is `b` with some elements left out, the rest in their order. */
  predicate IsSubsequence<T(==)>(a: seq<T>, b: seq<T>)
    decreases |b|
  {
    if a == [] then true
    else if b == [] then false
    else (a[0] == b[0] && IsSubsequence(a[1..], b[1..])) || IsSubsequence(a, b[1..])
  }

  predicate NoDuplicates<T(==)>(s: seq<T>) {
    forall i, j :: 0 <= i < j < |s| ==> s[i] != s[j]
  }

  /** The list comprehension over `SELECT DISTINCT series`: exactly the
      matching series, in their original order. */
  function MatchingSeries(allSeries: seq<string>, keyword: string,
                          norm: string -> string, lower: string -> string): (r: seq<string>)
    ensures forall s :: s in r <==> s in allSeries && Matches(keyword, s, norm, lower)
    ensures IsSubsequence(r, allSeries)
    ensures NoDuplicates(allSeries) ==> NoDuplicates(r)
    decreases |allSeries|
  {
    if allSeries == [] then []
    else
      var rest := MatchingSeries(allSeries[1..], keyword, norm, lower);
      if Matches(keyword, allSeries[0], norm, lower) then [allSeries[0]] + rest else rest
  }

  datatype Lookup =
    | NoMatch
    | Ambiguous(candidates: seq<string>)
    | Unique(series: string)

  /** The three-way decision on the matches: none, more than one (the list
      is sent back for the user to choose), or exactly one. */
  function LookupSeries(allSeries: seq<string>, keyword: string,
                        norm: string -> string, lower: string -> string): (r: Lookup)
    ensures r.NoMatch? <==> forall s :: s in allSeries ==> !Matches(keyword, s, norm, lower)
    ensures r.Ambiguous? <==> |MatchingSeries(allSeries, keyword, norm, lower)| > 1
    ensures r.Ambiguous? ==> r.candidates == MatchingSeries(allSeries, keyword, norm, lower)
    ensures r.Ambiguous? && NoDuplicates(allSeries) ==>
              r.candidates[0] != r.candidates[1]
              && r.candidates[0] in allSeries && Matches(keyword, r.candidates[0], norm, lower)
              && r.candidates[1] in allSeries && Matches(keyword, r.candidates[1], norm, lower)
    ensures r.Unique? ==>
              r.series in allSeries && Matches(keyword, r.series, norm, lower)
              && forall s :: s in allSeries && Matches(keyword, s, norm, lower) ==> s == r.series
  {
    var matches := MatchingSeries(allSeries, keyword, norm, lower);
    if matches == [] then
      NoMatch
    else if |matches| > 1 then
      assert matches[0] in matches && matches[1] in matches;
      Ambiguous(matches)
    else
      assert matches[0] in matches;
      Unique(matches[0])
  }

  /** A row of `SELECT id, image, series_emoji FROM cards WHERE series = $1`. */
  datatype AlbumCard = AlbumCard(id: string, image: Catalog.Blob, seriesEmoji: Option<string>)

  function RowOf(c: Catalog.Card): AlbumCard {
    AlbumCard(c.id, c.image, c.seriesEmoji)
  }

  /** The query rows of the whole catalog, in catalog order. */
  function Rows(catalog: seq<Catalog.Card>): seq<AlbumCard> {
    seq(|catalog|, i requires 0 <= i < |catalog| => RowOf(catalog[i]))
  }

  /** The catalog's `series` column, in catalog order. */
  function SeriesColumn(catalog: seq<Catalog.Card>): seq<string> {
    seq(|catalog|, i requires 0 <= i < |catalog| => catalog[i].series)
  }

  /** The cards of one series, in catalog order (the catalog is given in
      `ORDER BY id` order): one row per catalog card of the series, none
      repeated and none reordered. */
  function SeriesCards(catalog: seq<Catalog.Card>, name: string): (r: seq<AlbumCard>)
    ensures |r| <= |catalog|
    ensures forall c :: c in catalog && c.series == name ==> RowOf(c) in r
    ensures forall x :: x in r ==> exists c :: c in catalog && c.series == name && RowOf(c) == x
    ensures IsSubsequence(r, Rows(catalog))
    ensures |r| == multiset(SeriesColumn(catalog))[name]
    decreases |catalog|
  {
    if catalog == [] then
      assert SeriesColumn(catalog) == [];
      []
    else
      var rest := SeriesCards(catalog[1..], name);
      assert SeriesColumn(catalog) == [catalog[0].series] + SeriesColumn(catalog[1..]);
      assert Rows(catalog)[0] == RowOf(catalog[0]);
      assert Rows(catalog)[1..] == Rows(catalog[1..]);
      if catalog[0].series == name then [RowOf(catalog[0])] + rest else rest
  }

  /** Every listed series is the series of some catalog card, as it is when
      the list is `SELECT DISTINCT series FROM cards`. */
  predicate SeriesFromCatalog(allSeries: seq<string>, catalog: seq<Catalog.Card>) {
    forall s :: s in allSeries ==> exists c :: c in catalog && c.series == s
  }

  function IdsOf(cards: seq<AlbumCard>): set<string> {
    set c | c in cards :: c.id
  }

  lemma {:induction false} IdsOfBound(cards: seq<AlbumCard>)
    ensures |IdsOf(cards)| <= |cards|
    decreases |cards|
  {
    if cards != [] {
      IdsOfBound(cards[1..]);
      assert IdsOf(cards) == {cards[0].id} + IdsOf(cards[1..]);
    }
  }

  /** The card ids of `user`'s inventory rows for the series' cards. The
      table's key makes this one id per row, so its size is the row count. */
  function CollectedIds(table: Inventory.Table, user: Inventory.UserId, ids: set<string>): (r: set<string>)
    ensures r <= ids
    ensures forall c :: c in r <==> c in ids && (user, c) in table
  {
    set k | k in table.Keys && k.0 == user && k.1 in ids :: k.1
  }

  /** Progress never exceeds the size of the series. */
  lemma ProgressBounded(table: Inventory.Table, user: Inventory.UserId, cards: seq<AlbumCard>)
    ensures |CollectedIds(table, user, IdsOf(cards))| <= |cards|
  {
    IdsOfBound(cards);
    var ids := IdsOf(cards);
    var r := CollectedIds(table, user, ids);
    assert r <= ids;
    SubsetSize(r, ids);
  }

  lemma SubsetSize(a: set<string>, b: set<string>)
    requires a <= b
    ensures |a| <= |b|
  {
    assert b == a + (b - a);
  }

  /** `[cards[i:i+4] for i in range(0, len(cards), 4)]`: consecutive groups
      of four, the last one possibly shorter. */
  function Groups<T>(cards: seq<T>): (gs: seq<seq<T>>)
    ensures |gs| == (|cards| + 3) / 4
    ensures forall g :: 0 <= g < |gs| ==> 1 <= |gs[g]| <= 4
    ensures forall g :: 0 <= g < |gs| - 1 ==> |gs[g]| == 4
    ensures Flatten(gs) == cards
    decreases |cards|
  {
    if cards == [] then []
    else if |cards| <= 4 then [cards]
    else [cards[..4]] + Groups(cards[4..])
  }

  function Flatten<T>(gs: seq<seq<T>>): seq<T>
    decreases |gs|
  {
    if gs == [] then [] else gs[0] + Flatten(gs[1..])
  }

  /** Group `g` is the slice `cards[4g : 4g + 4]`, clamped at the end. */
  lemma {:induction false} GroupIsSlice<T>(cards: seq<T>, g: nat)
    requires g < |Groups(cards)|
    ensures 4 * g < |cards|
    ensures Groups(cards)[g] == if 4 * g + 4 <= |cards| then cards[4 * g..4 * g + 4] else cards[4 * g..]
    decreases g
  {
    if g > 0 {
      GroupIsSlice(cards[4..], g - 1);
      assert Groups(cards)[g] == Groups(cards[4..])[g - 1];
      if 4 * g + 4 <= |cards| {
        assert cards[4..][4 * (g - 1)..4 * (g - 1) + 4] == cards[4 * g..4 * g + 4];
      } else {
        assert cards[4..][4 * (g - 1)..] == cards[4 * g..];
      }
    }
  }

  /** What a slot shows: the stored image of an owned card, or the blurred
      and darkened rendering of it for a card the user does not own. */
  datatype SlotImage = Original(blob: Catalog.Blob) | Blurred(blob: Catalog.Blob)

  function SlotImageOf(card: AlbumCard, collected: set<string>): (img: SlotImage)
    ensures img.Original? <==> card.id in collected
    ensures img.blob == card.image
  {
    if card.id in collected then Original(card.image) else Blurred(card.image)
  }

  /** The input of one `create_collage` call. */
  datatype CollageRequest = CollageRequest(images: seq<SlotImage>, ids: seq<string>)

  /** `req` shows `group`: one slot per card, in order, captioned with its id. */
  predicate RendersGroup(req: CollageRequest, group: seq<AlbumCard>, collected: set<string>) {
    && |req.images| == |group| && |req.ids| == |group|
    && forall i :: 0 <= i < |group| ==>
         req.ids[i] == group[i].id && req.images[i] == SlotImageOf(group[i], collected)
  }

  /** The per-group loop: for each card, its image or its blurred image, and its id. */
  method RenderGroup(group: seq<AlbumCard>, collected: set<string>) returns (req: CollageRequest)
    ensures RendersGroup(req, group, collected)
  {
    var images := [];
    var ids := [];
    for i := 0 to |group|
      invariant |images| == i && |ids| == i
      invariant forall j :: 0 <= j < i ==>
                  ids[j] == group[j].id && images[j] == SlotImageOf(group[j], collected)
    {
      if group[i].id in collected {
        images := images + [Original(group[i].image)];
      } else {
        images := images + [Blurred(group[i].image)];
      }
      ids := ids + [group[i].id];
    }
    req := CollageRequest(images, ids);
  }

  /** The outer loop: one collage per group of four, in order. */
  method RenderAlbum(cards: seq<AlbumCard>, collected: set<string>) returns (collages: seq<CollageRequest>)
    ensures |collages| == |Groups(cards)|
    ensures forall g :: 0 <= g < |collages| ==> RendersGroup(collages[g], Groups(cards)[g], collected)
  {
    ghost var gs := Groups(cards);
    ghost var total := (|cards| + 3) / 4;
    assert |gs| == total;
    collages := [];
    var i := 0;
    while i < |cards|
      invariant i == 4 * |collages| && |collages| <= total
      invariant forall g :: 0 <= g < |collages| ==> RendersGroup(collages[g], gs[g], collected)
      decreases |cards| - i
    {
      var group := if i + 4 <= |cards| then cards[i..i + 4] else cards[i..];
      CeilStep(|collages|, |cards|);
      GroupIsSlice(cards, |collages|);
      assert group == gs[|collages|];
      var req := RenderGroup(group, collected);
      RenderedPrefixGrows(collages, req, gs, collected);
      collages := collages + [req];
      i := i + 4;
    }
    CeilExit(|collages|, |cards|);
  }

  /** Appending the rendering of the next group keeps every collage so far
      the rendering of its group. */
  lemma RenderedPrefixGrows(collages: seq<CollageRequest>, req: CollageRequest,
                            gs: seq<seq<AlbumCard>>, collected: set<string>)
    requires |collages| < |gs|
    requires forall g :: 0 <= g < |collages| ==> RendersGroup(collages[g], gs[g], collected)
    requires RendersGroup(req, gs[|collages|], collected)
    ensures forall g :: 0 <= g < |collages| + 1 ==> RendersGroup((collages + [req])[g], gs[g], collected)
  {
  }

  lemma CeilStep(c: nat, n: nat)
    requires 4 * c < n
    ensures c < (n + 3) / 4
  {
  }

  lemma CeilExit(c: nat, n: nat)
    requires 4 * c >= n && c <= (n + 3) / 4
    ensures c == (n + 3) / 4
  {
  }

  datatype AlbumReply =
    | NoSeriesFound
    | ManySeriesFound(candidates: seq<string>)
    | SeriesWithoutCards
    | AlbumShown(seriesName: string, emoji: string, collected: nat, total: nat,
                 collages: seq<CollageRequest>)

  /** `album keyword` over the series list, the catalog and the inventory
      table. A series that has no card makes `all_cards[0]` raise an
      IndexError (SeriesWithoutCards); that cannot happen when the series
      list comes from the catalog. */
  method AlbumCommand(allSeries: seq<string>, keyword: string,
                      norm: string -> string, lower: string -> string,
                      catalog: seq<Catalog.Card>, table: Inventory.Table, user: Inventory.UserId)
    returns (reply: AlbumReply)
    ensures var lk := LookupSeries(allSeries, keyword, norm, lower);
      && (reply.NoSeriesFound? <==> lk.NoMatch?)
      && (reply.ManySeriesFound? <==> lk.Ambiguous?)
      && (reply.ManySeriesFound? ==> reply.candidates == lk.candidates)
      && (reply.SeriesWithoutCards? <==> lk.Unique? && SeriesCards(catalog, lk.series) == [])
      && (reply.AlbumShown? ==>
            var cards := SeriesCards(catalog, lk.series);
            var collected := CollectedIds(table, user, IdsOf(cards));
            && lk.Unique? && reply.seriesName == lk.series && cards != []
            && reply.total == |cards| && reply.collected == |collected|
            && reply.collected <= reply.total
            && reply.emoji == Emoji.FormatEmoji(cards[0].seriesEmoji)
            && |reply.collages| == |Groups(cards)|
            && forall g :: 0 <= g < |reply.collages| ==>
                 RendersGroup(reply.collages[g], Groups(cards)[g], collected))
    ensures SeriesFromCatalog(allSeries, catalog) ==> !reply.SeriesWithoutCards?
  {
    var lk := LookupSeries(allSeries, keyword, norm, lower);
    if lk.NoMatch? {
      return NoSeriesFound;
    }
    if lk.Ambiguous? {
      return ManySeriesFound(lk.candidates);
    }
    var name := lk.series;
    var cards := SeriesCards(catalog, name);
    if SeriesFromCatalog(allSeries, catalog) {
      var c :| c in catalog && c.series == name;
      assert RowOf(c) in cards;
    }
    if cards == [] {
      return SeriesWithoutCards;
    }
    var collected := CollectedIds(table, user, IdsOf(cards));
    ProgressBounded(table, user, cards);
    var emoji := Emoji.AlbumEmoji(cards[0].seriesEmoji);
    var collages := RenderAlbum(cards, collected);
    reply := AlbumShown(name, emoji, |collected|, |cards|, collages);
  }
}

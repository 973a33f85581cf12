/** The drop: three random catalog cards offered behind three numbered
    buttons, and the claim a click on one of them makes. */
module Drop {
  import opened Text
  import Catalog
  import Inventory
  import Layout

  /** The card fields a button carries (`card_data`). */
  datatype CardData = CardData(
    id: string,
    name: string,
    date: string,
    series: string,
    notes: Option<string>)

  function DataOf(c: Catalog.Card): CardData {
    CardData(c.id, c.name, c.date, c.series, c.notes)
  }

  datatype ButtonStyle = Primary | Success

  /** One button of a drop's view, as the chat platform renders it. */
  datatype CardButton = CardButton(text: string, style: ButtonStyle, disabled: bool, card: CardData)

  /** The button at position `index`: labelled from one, primary, enabled. */
  function NewButton(index: nat, data: CardData): CardButton {
    CardButton(NatToString(index + 1), Primary, false, data)
  }

  const RefusalText: string := "Not enough cards in the database!"

  /** The composed image: its canvas and where each card is pasted. */
  datatype Strip = Strip(width: int, height: int, offsets: seq<int>)

  datatype DropReply =
    | NotEnoughCards(message: string)
    | Offered(selected: seq<Catalog.Card>, strip: Strip, buttons: seq<CardButton>)

  /** Three distinct positions of a catalog of `n` cards. */
  predicate DistinctPicks(n: int, i: int, j: int, k: int) {
    0 <= i < n && 0 <= j < n && 0 <= k < n && i != j && i != k && j != k
  }

  /** `drop`: refused on a catalog of fewer than three cards; otherwise three
      cards at distinct catalog positions (chosen freely, as `random.sample`
      may), their images in one strip, and button `i` labelled `i + 1` and
      bound to the `i`-th selected card. `resizedWidth` is the width of a
      card's image scaled to the strip height. */
  method Drop(allCards: seq<Catalog.Card>, resizedWidth: Catalog.Card -> int)
    returns (reply: DropReply, ghost picks: seq<nat>)
    ensures |allCards| < 3 <==> reply.NotEnoughCards?
    ensures reply.NotEnoughCards? ==> reply.message == RefusalText
    ensures reply.Offered? ==>
      && |picks| == 3 && |reply.selected| == 3 && |reply.buttons| == 3
      && picks[0] != picks[1] && picks[0] != picks[2] && picks[1] != picks[2]
      && (forall b :: 0 <= b < 3 ==> picks[b] < |allCards| && reply.selected[b] == allCards[picks[b]])
      && (forall b :: 0 <= b < 3 ==>
            reply.buttons[b] == CardButton(NatToString(b + 1), Primary, false, DataOf(reply.selected[b])))
    ensures reply.Offered? && Catalog.UniqueIds(allCards) ==>
      forall a, b :: 0 <= a < b < 3 ==> reply.selected[a].id != reply.selected[b].id
    ensures reply.Offered? ==>
      var ws := [resizedWidth(reply.selected[0]), resizedWidth(reply.selected[1]), resizedWidth(reply.selected[2])];
      && reply.strip.width == Layout.StripWidth(ws)
      && reply.strip.height == Layout.StripHeight
      && |reply.strip.offsets| == 3
      && (forall b :: 0 <= b < 3 ==> reply.strip.offsets[b] == Layout.Offset(ws, b, Layout.StripGap))
  {
    if |allCards| < 3 {
      reply, picks := NotEnoughCards(RefusalText), [];
      return;
    }
    assert DistinctPicks(|allCards|, 0, 1, 2);
    var i, j, k :| DistinctPicks(|allCards|, i, j, k);
    assert DistinctPicks(|allCards|, i, j, k);
    picks := [i, j, k];
    var selected := [allCards[i], allCards[j], allCards[k]];

    var widths := [];
    var cardData := [];
    for n := 0 to 3
      invariant |widths| == n && |cardData| == n
      invariant forall m :: 0 <= m < n ==> widths[m] == resizedWidth(selected[m])
      invariant forall m :: 0 <= m < n ==> cardData[m] == DataOf(selected[m])
    {
      widths := widths + [resizedWidth(selected[n])];
      cardData := cardData + [DataOf(selected[n])];
    }

    assert widths == [resizedWidth(selected[0]), resizedWidth(selected[1]), resizedWidth(selected[2])];
    var offsets := Layout.PasteOffsets(widths, Layout.StripGap);
    var strip := Strip(Layout.StripWidth(widths), Layout.StripHeight, offsets);

    var buttons := [];
    for b := 0 to 3
      invariant |buttons| == b
      invariant forall m :: 0 <= m < b ==> buttons[m] == NewButton(m, cardData[m])
    {
      buttons := buttons + [NewButton(b, cardData[b])];
    }
    reply := Offered(selected, strip, buttons);
  }

  /** No button of the view can still be pressed. */
  predicate NoneEnabled(buttons: seq<CardButton>) {
    forall i :: 0 <= i < |buttons| ==> buttons[i].disabled
  }

  /** How many buttons show the success style. */
  function SuccessCount(buttons: seq<CardButton>): nat
    decreases |buttons|
  {
    if buttons == [] then 0
    else (if buttons[0].style == Success then 1 else 0) + SuccessCount(buttons[1..])
  }

  /** The view's buttons after button `k` was clicked: that button turns to
      the success style, every button is disabled, and labels and bound
      cards stay as they were. */
  function Claimed(buttons: seq<CardButton>, k: nat): (r: seq<CardButton>)
    requires k < |buttons|
    ensures |r| == |buttons|
    ensures r[k].style == Success
    ensures NoneEnabled(r)
    ensures forall i :: 0 <= i < |r| ==> r[i].text == buttons[i].text && r[i].card == buttons[i].card
    ensures forall i :: 0 <= i < |r| && i != k ==> r[i].style == buttons[i].style
  {
    seq(|buttons|, i requires 0 <= i < |buttons| =>
      buttons[i].(style := if i == k then Success else buttons[i].style, disabled := true))
  }

  /** Every button of `buttons` shows the primary style. */
  predicate AllPrimary(buttons: seq<CardButton>) {
    forall i :: 0 <= i < |buttons| ==> buttons[i].style == Primary
  }

  /** On a fresh drop every button is primary, so after a claim exactly one
      button, the clicked one, shows the success style. */
  lemma {:induction false} ClaimedHasOneWinner(buttons: seq<CardButton>, k: nat)
    requires k < |buttons| && AllPrimary(buttons)
    ensures SuccessCount(Claimed(buttons, k)) == 1
  {
    var r := Claimed(buttons, k);
    SuccessCountSplit(r, k);
    assert AllPrimary(r[..k]) && AllPrimary(r[k + 1..]);
    PrimaryCountsZero(r[..k]);
    PrimaryCountsZero(r[k + 1..]);
  }

  lemma {:induction false} PrimaryCountsZero(buttons: seq<CardButton>)
    requires AllPrimary(buttons)
    ensures SuccessCount(buttons) == 0
    decreases |buttons|
  {
    if buttons != [] {
      PrimaryCountsZero(buttons[1..]);
    }
  }

  lemma {:induction false} SuccessCountSplit(buttons: seq<CardButton>, k: nat)
    requires k < |buttons|
    ensures SuccessCount(buttons) ==
      SuccessCount(buttons[..k]) + (if buttons[k].style == Success then 1 else 0) + SuccessCount(buttons[k + 1..])
    decreases k
  {
    if k > 0 {
      SuccessCountSplit(buttons[1..], k - 1);
      assert buttons[1..][..k - 1] == buttons[..k][1..];
      assert buttons[1..][k - 1 + 1..] == buttons[k + 1..];
    } else {
      assert buttons[k + 1..] == buttons[1..];
    }
  }

  /** A drop that was offered shows enabled primary buttons, each bound to
      its selected card; once one is clicked, only that one is marked and
      nothing can be clicked again. */
  lemma OfferThenClaim(reply: DropReply, k: nat)
    requires reply.Offered? && |reply.buttons| == 3 && |reply.selected| == 3
    requires forall b :: 0 <= b < 3 ==>
      reply.buttons[b] == CardButton(NatToString(b + 1), Primary, false, DataOf(reply.selected[b]))
    requires k < 3
    ensures NoneEnabled(Claimed(reply.buttons, k))
    ensures SuccessCount(Claimed(reply.buttons, k)) == 1
    ensures Claimed(reply.buttons, k)[k].card.id == reply.selected[k].id
  {
    ClaimedHasOneWinner(reply.buttons, k);
  }

  /** `CardButton.callback` for the button at position `k` of `children`:
      marks it, disables every button of the view, and upserts the
      clicking user's row for the bound card. */
  method Callback(children: array<CardButton>, k: nat, table: Inventory.Table,
                  user: Inventory.UserId, now: int)
    returns (table': Inventory.Table)
    requires k < children.Length
    modifies children
    ensures children[..] == Claimed(old(children[..]), k)
    ensures table' == Inventory.Upsert(table, user, old(children[k]).card.id, now)
  {
    ghost var before := children[..];
    var cardId := children[k].card.id;
    children[k] := children[k].(style := Success);
    var i := 0;
    while i < children.Length
      invariant 0 <= i <= children.Length
      invariant forall j :: 0 <= j < i ==>
                  children[j] == before[j].(style := if j == k then Success else before[j].style, disabled := true)
      invariant forall j :: i <= j < children.Length ==>
                  children[j] == if j == k then before[j].(style := Success) else before[j]
    {
      children[i] := children[i].(disabled := true);
      i := i + 1;
    }
    table' := Inventory.Upsert(table, user, cardId, now);
  }
}

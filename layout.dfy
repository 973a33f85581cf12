/** The integer geometry of the two composed images: the drop strip of three
    cards and the album collage of four slots with captions. Image widths
    are given; decoding and resizing are not part of this model. */
module Layout {

  function Sum(ws: seq<int>): int
    decreases |ws|
  {
    if ws == [] then 0 else Sum(ws[..|ws| - 1]) + ws[|ws| - 1]
  }

  /** Where image `i` is pasted when images go left to right with `gap`
      pixels between neighbours: the widths before it plus one gap each. */
  function Offset(ws: seq<int>, i: nat, gap: int): int
    requires i <= |ws|
  {
    Sum(ws[..i]) + gap * i
  }

  /** Each image starts exactly `gap` pixels after its predecessor ends. */
  lemma OffsetStep(ws: seq<int>, i: nat, gap: int)
    requires i < |ws|
    ensures Offset(ws, i + 1, gap) == Offset(ws, i, gap) + ws[i] + gap
  {
    assert ws[..i + 1][..i] == ws[..i];
  }

  /** The last image ends at the sum of the widths plus one gap per pair of
      neighbours. */
  lemma LastImageEnd(ws: seq<int>, gap: int)
    requires |ws| > 0
    ensures Offset(ws, |ws| - 1, gap) + ws[|ws| - 1] == Sum(ws) + gap * (|ws| - 1)
  {
    assert ws[..|ws|] == ws;
    OffsetStep(ws, |ws| - 1, gap);
  }

  /** With non-negative widths, consecutive images do not overlap. */
  lemma NoOverlap(ws: seq<int>, gap: int, i: nat)
    requires gap >= 0 && i + 1 < |ws| && ws[i] >= 0
    ensures Offset(ws, i, gap) + ws[i] <= Offset(ws, i + 1, gap)
  {
    OffsetStep(ws, i, gap);
  }

  /** The paste loop: `x_offset` starts at 0 and grows by `w + gap` after
      each image. */
  method PasteOffsets(ws: seq<int>, gap: int) returns (offsets: seq<int>)
    ensures |offsets| == |ws|
    ensures forall i :: 0 <= i < |ws| ==> offsets[i] == Offset(ws, i, gap)
  {
    offsets := [];
    var x := 0;
    for i := 0 to |ws|
      invariant |offsets| == i
      invariant x == Offset(ws, i, gap)
      invariant forall j :: 0 <= j < i ==> offsets[j] == Offset(ws, j, gap)
    {
      offsets := offsets + [x];
      OffsetStep(ws, i, gap);
      x := x + ws[i] + gap;
    }
  }

  const StripGap: int := 20
  const StripHeight: int := 500

  /** The drop canvas width: the widths plus a fixed 40 pixels. */
  function StripWidth(ws: seq<int>): int {
    Sum(ws) + 40
  }

  /** For the three cards of a drop, the fixed 40 is exactly two gaps of 20:
      the third card ends at the right edge of the canvas. */
  lemma StripFitsThreeCards(ws: seq<int>)
    requires |ws| == 3
    ensures Offset(ws, 2, StripGap) + ws[2] == StripWidth(ws)
  {
    LastImageEnd(ws, StripGap);
  }

  const CollageSlots: nat := 4
  const CollageSpacing: int := 10
  const CaptionBand: int := 30
  const CaptionDrop: int := 5

  /** A caption: its text and the point it is drawn at. */
  datatype Caption = Caption(text: string, x: int, y: int)

  datatype CollageLayout = CollageLayout(
    width: int,
    height: int,
    slotWidths: seq<int>,
    offsets: seq<int>,
    captions: seq<Caption>)

  /** The slot loop of `create_collage`: four slots; slot `i` takes the width
      of image `i` when there is one, the placeholder width otherwise. */
  method SlotWidths(imageWidths: seq<int>, placeholderWidth: int) returns (slots: seq<int>)
    ensures |slots| == CollageSlots
    ensures forall i :: 0 <= i < CollageSlots ==>
              slots[i] == if i < |imageWidths| then imageWidths[i] else placeholderWidth
  {
    slots := [];
    for i := 0 to CollageSlots
      invariant |slots| == i
      invariant forall j :: 0 <= j < i ==>
                  slots[j] == if j < |imageWidths| then imageWidths[j] else placeholderWidth
    {
      if i < |imageWidths| {
        slots := slots + [imageWidths[i]];
      } else {
        slots := slots + [placeholderWidth];
      }
    }
  }

  /** The caption under a slot, centred by floor division of the slack. */
  function CaptionFor(id: string, slotX: int, slotWidth: int, targetHeight: int,
                      textWidth: string -> int): (c: Caption)
    ensures c.text == "ID: " + id && c.y == targetHeight + CaptionDrop
    ensures 0 <= (slotWidth - textWidth(c.text)) - 2 * (c.x - slotX) <= 1
  {
    var text := "ID: " + id;
    Caption(text, slotX + (slotWidth - textWidth(text)) / 2, targetHeight + CaptionDrop)
  }

  /** `create_collage` without the pixels: four slots side by side with
      10-pixel spacing on a canvas 30 pixels taller than the cards, and a
      caption under each of the first `|cardIds|` slots. */
  method CreateCollage(imageWidths: seq<int>, cardIds: seq<string>, targetHeight: int,
                       placeholderWidth: int, textWidth: string -> int)
    returns (layout: CollageLayout)
    ensures |layout.slotWidths| == CollageSlots && |layout.offsets| == CollageSlots
    ensures forall i :: 0 <= i < CollageSlots ==>
              layout.slotWidths[i] == if i < |imageWidths| then imageWidths[i] else placeholderWidth
    ensures layout.width == Sum(layout.slotWidths) + CollageSpacing * (CollageSlots - 1)
    ensures layout.height == targetHeight + CaptionBand
    ensures forall i :: 0 <= i < CollageSlots ==>
              layout.offsets[i] == Offset(layout.slotWidths, i, CollageSpacing)
    ensures |layout.captions| == if |cardIds| < CollageSlots then |cardIds| else CollageSlots
    ensures forall i :: 0 <= i < |layout.captions| ==>
              layout.captions[i] == CaptionFor(cardIds[i], layout.offsets[i], layout.slotWidths[i],
                                               targetHeight, textWidth)
  {
    var slots := SlotWidths(imageWidths, placeholderWidth);
    var width := Sum(slots) + CollageSpacing * (|slots| - 1);
    var captions := [];
    var offsets := [];
    var x := 0;
    for i := 0 to |slots|
      invariant |offsets| == i
      invariant x == Offset(slots, i, CollageSpacing)
      invariant forall j :: 0 <= j < i ==> offsets[j] == Offset(slots, j, CollageSpacing)
      invariant |captions| == if |cardIds| < i then |cardIds| else i
      invariant forall j :: 0 <= j < |captions| ==>
                  captions[j] == CaptionFor(cardIds[j], offsets[j], slots[j], targetHeight, textWidth)
    {
      offsets := offsets + [x];
      if i < |cardIds| {
        captions := captions + [CaptionFor(cardIds[i], x, slots[i], targetHeight, textWidth)];
      }
      OffsetStep(slots, i, CollageSpacing);
      x := x + slots[i] + CollageSpacing;
    }
    layout := CollageLayout(width, targetHeight + CaptionBand, slots, offsets, captions);
  }

  /** The fourth slot ends at the collage's right edge. */
  lemma CollageFitsFourSlots(slots: seq<int>)
    requires |slots| == CollageSlots
    ensures Offset(slots, 3, CollageSpacing) + slots[3] == Sum(slots) + CollageSpacing * (CollageSlots - 1)
  {
    LastImageEnd(slots, CollageSpacing);
  }
}

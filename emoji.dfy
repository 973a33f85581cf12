/** How a card's `series_emoji` column is shown in listings, the card view
    and the album header. */
module Emoji {
  import opened Text

  /** Shown when a series has no emoji of its own (U+1F0CF, a playing card). */
  const DefaultEmoji: string := "\U{1F0CF}"

  /** Discord's markup for a custom emoji given by its numeric id. */
  function CustomEmoji(id: string): string {
    "<:card:" + id + ">"
  }

  /** The formatting of the inventory listing and of the card view: a numeric
      id becomes custom-emoji markup, a missing or empty value the default,
      and anything else (a literal emoji) is kept. */
  function FormatEmoji(e: Option<string>): (r: string)
    ensures e.Some? && IsDigitString(e.value) ==> r == "<:card:" + e.value + ">"
    ensures e == None || e == Some("") ==> r == DefaultEmoji
    ensures e.Some? && e.value != "" && !IsDigitString(e.value) ==> r == e.value
    ensures r != ""
  {
    if e.Some? && e.value != "" && AllDigits(e.value) then CustomEmoji(e.value)
    else if e.None? || e.value == "" then DefaultEmoji
    else e.value
  }

  /** The album header's variant: substitute the default for a missing or
      empty value first, then test the result for digits. It agrees with
      FormatEmoji on every input. */
  function AlbumEmoji(e: Option<string>): (r: string)
    ensures r == FormatEmoji(e)
  {
    var s := if e.Some? && e.value != "" then e.value else DefaultEmoji;
    assert !IsDigit(DefaultEmoji[0]);
    if IsDigitString(s) then CustomEmoji(s) else s
  }

  /** Formatting an already formatted value changes nothing: neither the
      markup nor the default emoji is a string of digits. */
  lemma FormatEmojiIdempotent(e: Option<string>)
    ensures FormatEmoji(Some(FormatEmoji(e))) == FormatEmoji(e)
  {
    var r := FormatEmoji(e);
    if e.Some? && IsDigitString(e.value) {
      assert r[0] == '<';
    } else if e == None || e == Some("") {
      assert !IsDigit(r[0]);
    }
  }
}

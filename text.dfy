/** Strings as the bot handles them: optional database text, Python's
    `str.isdigit`, `str(n)`, the substring test `needle in hay`, and
    `sep.join(items)`. */
module Text {

  /** A nullable column: `None` stands for SQL NULL / Python `None`. */
  datatype Option<T> = None | Some(value: T)

  predicate IsDigit(c: char) {
    '0' <= c <= '9'
  }

  predicate AllDigits(s: string) {
    forall i :: 0 <= i < |s| ==> IsDigit(s[i])
  }

  /** Python's `s.isdigit()`: false on the empty string. */
  predicate IsDigitString(s: string) {
    |s| > 0 && AllDigits(s)
  }

  function DigitChar(d: nat): (c: char)
    requires d < 10
    ensures IsDigit(c) && c as int - '0' as int == d
  {
    ('0' as int + d) as char
  }

  /** Python's `str(n)` for a non-negative integer. */
  function NatToString(n: nat): (r: string)
    ensures IsDigitString(r)
    ensures r[0] == '0' <==> n == 0
    ensures n < 10 <==> |r| == 1
    decreases n
  {
    if n < 10 then [DigitChar(n)] else NatToString(n / 10) + [DigitChar(n % 10)]
  }

  /** Python's `str(i)` for any integer: an optional minus sign, then the
      decimal digits of `|i|`, which read back as `|i|`. */
  function IntToString(i: int): (r: string)
    ensures |r| > 0
    ensures r[0] == '-' <==> i < 0
    ensures i == 0 ==> r == "0"
    ensures i > 0 ==> r[0] != '0'
    ensures i < 0 ==> |r| > 1 && r[1] != '0'
    ensures i >= 0 ==> IsDigitString(r) && DigitsValue(r) == i
    ensures i < 0 ==> IsDigitString(r[1..]) && DigitsValue(r[1..]) == -i
  {
    if i < 0 then
      NatToStringRoundTrip(-i);
      var s := "-" + NatToString(-i);
      assert s[1..] == NatToString(-i);
      s
    else
      NatToStringRoundTrip(i);
      NatToString(i)
  }

  /** The value of a string of decimal digits, as Python's `int(s)` reads it. */
  function DigitsValue(s: string): nat
    requires AllDigits(s)
  {
    if s == [] then 0
    else DigitsValue(s[..|s| - 1]) * 10 + (s[|s| - 1] as int - '0' as int)
  }

  /** `int(str(n)) == n`: the decimal rendering loses nothing. */
  lemma {:induction false} NatToStringRoundTrip(n: nat)
    ensures DigitsValue(NatToString(n)) == n
    decreases n
  {
    var r := NatToString(n);
    if n >= 10 {
      NatToStringRoundTrip(n / 10);
      assert r[..|r| - 1] == NatToString(n / 10);
    }
  }

  /** The rendering is injective: distinct numbers get distinct labels. */
  lemma NatToStringInjective(m: nat, n: nat)
    requires m != n
    ensures NatToString(m) != NatToString(n)
  {
    NatToStringRoundTrip(m);
    NatToStringRoundTrip(n);
  }

  /** The run of decimal digits at the start of `s`, as a parser reading a
      number stops at the first non-digit. */
  function LeadingDigits(s: string): (r: string)
    ensures AllDigits(r) && |r| <= |s| && r == s[..|r|]
    decreases |s|
  {
    if s == [] || !IsDigit(s[0]) then [] else [s[0]] + LeadingDigits(s[1..])
  }

  /** A digit string followed by a non-digit is read back whole. */
  lemma {:induction false} LeadingDigitsOfConcat(a: string, b: string)
    requires AllDigits(a)
    requires b == [] || !IsDigit(b[0])
    ensures LeadingDigits(a + b) == a
    decreases |a|
  {
    if a != [] {
      assert (a + b)[1..] == a[1..] + b;
      LeadingDigitsOfConcat(a[1..], b);
    } else {
      assert a + b == b;
    }
  }

  predicate IsPrefix(p: string, s: string) {
    |p| <= |s| && s[..|p|] == p
  }

  /** Python's `needle in hay` on strings. */
  predicate Contains(hay: string, needle: string)
    decreases |hay|
  {
    IsPrefix(needle, hay) || (hay != [] && Contains(hay[1..], needle))
  }

  /** `needle` occurs in `hay` starting at position `i`. */
  predicate OccursAt(hay: string, needle: string, i: int) {
    0 <= i <= |hay| - |needle| && hay[i..i + |needle|] == needle
  }

  /** An occurrence in the tail is an occurrence one position further on. */
  lemma ShiftOccurrence(hay: string, needle: string, i: nat)
    requires hay != []
    ensures OccursAt(hay[1..], needle, i) <==> OccursAt(hay, needle, i + 1)
  {
    if i <= |hay| - 1 - |needle| {
      assert hay[1..][i..i + |needle|] == hay[i + 1..i + 1 + |needle|];
    }
  }

  /** `needle in hay` holds exactly when `needle` occurs at some position of `hay`. */
  lemma {:induction false} ContainsOccurrence(hay: string, needle: string)
    ensures Contains(hay, needle) <==> exists i :: OccursAt(hay, needle, i)
    decreases |hay|
  {
    if IsPrefix(needle, hay) {
      assert OccursAt(hay, needle, 0);
    } else if hay == [] {
      assert forall i :: !OccursAt(hay, needle, i);
    } else {
      ContainsOccurrence(hay[1..], needle);
      if Contains(hay[1..], needle) {
        var j :| OccursAt(hay[1..], needle, j);
        ShiftOccurrence(hay, needle, j);
      } else {
        forall i | OccursAt(hay, needle, i)
          ensures false
        {
          if i != 0 {
            ShiftOccurrence(hay, needle, i - 1);
          }
        }
      }
    }
  }

  /** Python's `sep.join(items)`: the items in order, `sep` between
      neighbours; the first item starts the result. */
  function Join(sep: string, items: seq<string>): (r: string)
    ensures items == [] ==> r == ""
    ensures items != [] ==> IsPrefix(items[0], r)
    decreases |items|
  {
    if items == [] then ""
    else if |items| == 1 then items[0]
    else items[0] + sep + Join(sep, items[1..])
  }

  /** Joined with a one-character separator that no item contains, the
      result holds exactly one separator per pair of neighbouring items:
      `n` lines joined by newlines show as `n` lines. */
  lemma {:induction false} JoinSeparatorCount(c: char, items: seq<string>)
    requires items != []
    requires forall i :: 0 <= i < |items| ==> c !in items[i]
    ensures multiset(Join([c], items))[c] == |items| - 1
    decreases |items|
  {
    if |items| == 1 {
      assert c !in items[0];
      assert multiset(items[0])[c] == 0;
    } else {
      JoinSeparatorCount(c, items[1..]);
      assert c !in items[0];
      assert multiset(items[0])[c] == 0;
      assert Join([c], items) == items[0] + [c] + Join([c], items[1..]);
      assert multiset(items[0] + [c] + Join([c], items[1..]))
        == multiset(items[0]) + multiset([c]) + multiset(Join([c], items[1..]));
    }
  }

  /** Python's `s.split(c)` for a one-character separator: the pieces
      between consecutive occurrences of `c`; the empty string gives one
      empty piece. */
  function Split(c: char, s: string): (r: seq<string>)
    ensures |r| >= 1
    decreases |s|
  {
    if s == [] then [[]]
    else
      var rest := Split(c, s[1..]);
      if s[0] == c then [[]] + rest else [[s[0]] + rest[0]] + rest[1..]
  }

  /** A piece without the separator joins the first piece of what follows. */
  lemma {:induction false} SplitPrefix(c: char, a: string, t: string)
    requires c !in a
    ensures Split(c, a + t) == [a + Split(c, t)[0]] + Split(c, t)[1..]
    decreases |a|
  {
    if a == [] {
      var st := Split(c, t);
      assert a + t == t && a + st[0] == st[0];
      assert st == [st[0]] + st[1..];
    } else {
      assert (a + t)[0] == a[0] && (a + t)[1..] == a[1..] + t;
      SplitPrefix(c, a[1..], t);
      assert [a[0]] + (a[1..] + Split(c, t)[0]) == a + Split(c, t)[0];
    }
  }

  /** Splitting a join at its separator gives the items back, when no item
      holds the separator: every item appears, in order, and nothing else. */
  lemma {:induction false} SplitJoin(c: char, items: seq<string>)
    requires items != []
    requires forall i :: 0 <= i < |items| ==> c !in items[i]
    ensures Split(c, Join([c], items)) == items
    decreases |items|
  {
    assert c !in items[0];
    if |items| == 1 {
      SplitPrefix(c, items[0], []);
      assert items[0] + [] == items[0];
    } else {
      SplitJoin(c, items[1..]);
      var rest := Join([c], items[1..]);
      assert Join([c], items) == items[0] + ([c] + rest);
      SplitPrefix(c, items[0], [c] + rest);
      assert ([c] + rest)[0] == c && ([c] + rest)[1..] == rest;
      assert Split(c, [c] + rest) == [[]] + Split(c, rest);
      assert items[0] + [] == items[0];
      assert items == [items[0]] + items[1..];
    }
  }

  /** `needle in a + needle + b`. */
  lemma ContainsInfix(a: string, needle: string, b: string)
    ensures Contains(a + needle + b, needle)
  {
    var s := a + needle + b;
    assert s[|a|..|a| + |needle|] == needle;
    assert OccursAt(s, needle, |a|);
    ContainsOccurrence(s, needle);
  }

  /** The pieces `ps` one after the other. */
  function Concat(ps: seq<string>): string
    decreases |ps|
  {
    if ps == [] then "" else ps[0] + Concat(ps[1..])
  }

  /** The concatenation around piece `k`: the pieces before it, the piece,
      the pieces after it. */
  lemma {:induction false} ConcatSplit(ps: seq<string>, k: nat)
    requires k < |ps|
    ensures Concat(ps) == Concat(ps[..k]) + ps[k] + Concat(ps[k + 1..])
    decreases k
  {
    if k == 0 {
      assert ps[..0] == [];
      assert ps[1..] == ps[k + 1..];
    } else {
      ConcatSplit(ps[1..], k - 1);
      assert ps[1..][..k - 1] == ps[..k][1..];
      assert ps[1..][k - 1 + 1..] == ps[k + 1..];
      assert Concat(ps[..k]) == ps[0] + Concat(ps[..k][1..]);
    }
  }

  /** Every piece occurs in the concatenation. */
  lemma ConcatContains(ps: seq<string>, k: nat)
    requires k < |ps|
    ensures Contains(Concat(ps), ps[k])
  {
    ConcatSplit(ps, k);
    ContainsInfix(Concat(ps[..k]), ps[k], Concat(ps[k + 1..]));
  }
}

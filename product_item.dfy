/** The two values a list entry derives from its record's fields
    (react-native/src/components/ProductItem.tsx): the category chips and the
    thumbnail address. The record's `fields` may itself be absent. */
module ProductItem {
  import opened Wrappers
  import opened Inventory

  const PlaceHolderImage: string :=
    "https://upload.wikimedia.org/wikipedia/commons/thumb/6/65/No-Image-Placeholder.svg/1665px-No-Image-Placeholder.svg.png"

  /** The most chips an entry shows. */
  const MaxChips: nat := 3

  /** JavaScript's `s.split(sep)` for a one-character separator: the pieces
      between separators, in order, empty ones included. */
  function Split(s: string, sep: char): (pieces: seq<string>)
    ensures |pieces| >= 1
    decreases |s|
  {
    if s == [] then [[]]
    else
      var rest := Split(s[1..], sep);
      if s[0] == sep then [[]] + rest
      else [[s[0]] + rest[0]] + rest[1..]
  }

  /** JavaScript's `pieces.join(sep)`. */
  function Join(pieces: seq<string>, sep: char): (s: string)
  {
    if pieces == [] then []
    else if |pieces| == 1 then pieces[0]
    else pieces[0] + [sep] + Join(pieces[1..], sep)
  }

  /** Joining the pieces gives the string back. */
  lemma {:induction false} JoinSplit(s: string, sep: char)
    ensures Join(Split(s, sep), sep) == s
    decreases |s|
  {
    if s != [] {
      var rest := Split(s[1..], sep);
      JoinSplit(s[1..], sep);
      if s[0] == sep {
        assert ([[]] + rest)[1..] == rest;
      } else {
        var pieces := [[s[0]] + rest[0]] + rest[1..];
        if |rest| > 1 {
          assert pieces[1..] == rest[1..];
          assert Join(rest, sep) == rest[0] + [sep] + Join(rest[1..], sep);
        }
      }
    }
  }

  /** No piece contains the separator, and there is one piece more than there
      are separators. */
  lemma {:induction false} SplitPieces(s: string, sep: char)
    ensures forall i :: 0 <= i < |Split(s, sep)| ==> sep !in Split(s, sep)[i]
    ensures |Split(s, sep)| == multiset(s)[sep] + 1
    decreases |s|
  {
    if s != [] {
      SplitPieces(s[1..], sep);
      assert s == [s[0]] + s[1..];
      assert multiset(s) == multiset([s[0]]) + multiset(s[1..]);
    }
  }

  /** Joining the first `k` pieces gives a prefix of joining them all. */
  lemma {:induction false} JoinTakePrefix(pieces: seq<string>, sep: char, k: nat)
    requires 1 <= k <= |pieces|
    ensures Join(pieces[..k], sep) <= Join(pieces, sep)
    decreases k
  {
    if k == 1 {
      assert pieces[..1] == [pieces[0]];
    } else {
      assert pieces[..k][1..] == pieces[1..][..k - 1];
      JoinTakePrefix(pieces[1..], sep, k - 1);
    }
  }

  /** The chips: `fields?.["Product Categories"]?.split(",")?.slice(0, 3)`,
      and none when the fields or the categories are absent. */
  function Chips(fields: Option<Fields>): (chips: seq<string>)
    ensures |chips| <= MaxChips
    ensures fields.None? || fields.value.productCategories.None? <==> chips == []
  {
    if fields.None? || fields.value.productCategories.None? then []
    else
      var pieces := Split(fields.value.productCategories.value, ',');
      pieces[..if |pieces| < MaxChips then |pieces| else MaxChips]
  }

  /** At most three chips; the chips are the leading pieces of the categories
      split on commas, untrimmed and in order, as many as there are up to
      three, so they join back into a prefix of the categories, the whole of
      it when the categories hold at most two commas. */
  lemma ChipsArePrefix(fields: Option<Fields>)
    ensures |Chips(fields)| <= MaxChips
    ensures fields.None? || fields.value.productCategories.None? ==> Chips(fields) == []
    ensures fields.Some? && fields.value.productCategories.Some? ==>
      var c := fields.value.productCategories.value;
      && Chips(fields) <= Split(c, ',')
      && |Chips(fields)| == (if multiset(c)[','] < MaxChips then multiset(c)[','] + 1 else MaxChips)
      && (forall i :: 0 <= i < |Chips(fields)| ==> ',' !in Chips(fields)[i])
      && Join(Chips(fields), ',') <= c
      && (multiset(c)[','] < MaxChips ==> Join(Chips(fields), ',') == c)
  {
    if fields.Some? && fields.value.productCategories.Some? {
      var c := fields.value.productCategories.value;
      var pieces := Split(c, ',');
      SplitPieces(c, ',');
      JoinSplit(c, ',');
      var k := if |pieces| < MaxChips then |pieces| else MaxChips;
      JoinTakePrefix(pieces, ',', k);
      assert pieces[..|pieces|] == pieces;
    }
  }

  /** Categories that are the empty string give one empty chip. */
  lemma EmptyCategoriesGiveOneEmptyChip(f: Fields)
    requires f.productCategories == Some("")
    ensures Chips(Some(f)) == [""]
  {
  }

  /** The thumbnail address: `fields?.["Product Image"] || PlaceHolderImage`.
      A non-empty image address is used as it is; an absent or empty one is
      replaced by the placeholder, so the address is never empty. */
  function ImageUri(fields: Option<Fields>): (uri: string)
    ensures uri != ""
    ensures fields.Some? && fields.value.productImage.Some? && fields.value.productImage.value != "" ==>
      uri == fields.value.productImage.value
    ensures fields.None? || fields.value.productImage.None? || fields.value.productImage.value == "" ==>
      uri == PlaceHolderImage
  {
    if fields.Some? && fields.value.productImage.Some? && fields.value.productImage.value != "" then
      fields.value.productImage.value
    else
      PlaceHolderImage
  }
}

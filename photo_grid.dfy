/**
 * `PhotoGrid`: one card per photo, in list order, keyed by the photo's id. A card shows the
 * first two labels as badges (each cut at its first comma), a "+n" badge for the rest, the
 * name, and the confidence as a rounded percentage on a green, yellow or red badge. Its
 * dialog lists every label the same way and deletes the photo by id.
 */
module PhotoGrid {
  import opened Options
  import opened Text
  import Gallery
  import CategoryFilter

  /** The three colour schemes of `getConfidenceColor`. */
  datatype Tone = Green | Yellow | Red

  /** `getConfidenceColor`: green from 0.8, yellow from 0.6, red below. */
  function ConfidenceTone(confidence: real): (t: Tone)
    ensures t == Green <==> 0.8 <= confidence
    ensures t == Yellow <==> 0.6 <= confidence < 0.8
    ensures t == Red <==> confidence < 0.6
  {
    if confidence >= 0.8 then Green
    else if confidence >= 0.6 then Yellow
    else Red
  }

  /** How good a tone reads: red below yellow below green. */
  function Rank(t: Tone): nat {
    match t
    case Red => 0
    case Yellow => 1
    case Green => 2
  }

  /** A higher confidence never gets a worse colour. */
  lemma ToneMonotone(a: real, b: real)
    requires a <= b
    ensures Rank(ConfidenceTone(a)) <= Rank(ConfidenceTone(b))
  {
  }

  /** `Math.round(confidence * 100)`: the nearest integer, halves rounded up. */
  function Percent(confidence: real): (n: int)
    ensures n as real - 0.5 <= confidence * 100.0 < n as real + 0.5
  {
    (confidence * 100.0 + 0.5).Floor
  }

  /** A confidence between 0 and 1 shows as a percentage between 0 and 100. */
  lemma PercentInRange(confidence: real)
    requires 0.0 <= confidence <= 1.0
    ensures 0 <= Percent(confidence) <= 100
  {
  }

  /** `category.split(',')[0]`, as a badge shows it: cut at the first comma, not trimmed. */
  function BadgeText(category: string): (r: string)
    ensures ',' !in r && |r| <= |category| && r == category[..|r|]
    ensures |r| < |category| ==> category[|r|] == ','
  {
    BeforeFirstComma(category)
  }

  /**
   * A badge and the category filter's button show the same name exactly when the part before
   * the first comma has no surrounding whitespace.
   */
  lemma BadgeMatchesButton(category: string)
    ensures CategoryFilter.FormatCategoryName(category) == BadgeText(category) <==> Trimmed(BadgeText(category))
  {
    if Trimmed(BadgeText(category)) {
      TrimOfTrimmed(BadgeText(category));
    }
  }

  /** `s.slice(0, n)`. */
  function Take<T>(s: seq<T>, n: nat): (r: seq<T>)
    ensures |r| == if |s| < n then |s| else n
    ensures r == s[..|r|]
  {
    if |s| < n then s else s[..n]
  }

  /** The badge text of each label, in order. */
  function BadgeTexts(categories: seq<string>): (r: seq<string>)
    ensures |r| == |categories|
    ensures forall i | 0 <= i < |r| :: r[i] == BadgeText(categories[i])
  {
    seq(|categories|, i requires 0 <= i < |categories| => BadgeText(categories[i]))
  }

  /** What a grid card shows, and which photo it stands for. */
  datatype Card = Card(photoId: Gallery.Id, title: string, badges: seq<string>, more: Option<nat>, tone: Tone, percent: int)

  /** The card of one photo. */
  function CardFor(p: Gallery.Photo): (c: Card)
    ensures c.photoId == p.id && c.title == p.name
    ensures c.tone == ConfidenceTone(p.confidence) && c.percent == Percent(p.confidence)
    ensures |c.badges| == if |p.categories| < 2 then |p.categories| else 2
    ensures forall i | 0 <= i < |c.badges| :: c.badges[i] == BadgeText(p.categories[i])
    ensures c.more.Some? <==> |p.categories| > 2
  {
    var more := if |p.categories| > 2 then Some(|p.categories| - 2) else None;
    Card(p.id, p.name, BadgeTexts(Take(p.categories, 2)), more, ConfidenceTone(p.confidence), Percent(p.confidence))
  }

  /** The labels in a photo's dialog: all of them, in order, cut at the first comma. */
  function DialogBadges(p: Gallery.Photo): (r: seq<string>)
    ensures |r| == |p.categories|
    ensures forall i | 0 <= i < |r| :: r[i] == BadgeText(p.categories[i])
  {
    BadgeTexts(p.categories)
  }

  /**
   * A card accounts for every label: its badges are the first ones the dialog lists, and the
   * "+n" badge counts exactly the ones left over.
   */
  lemma CardAccountsForAllLabels(p: Gallery.Photo)
    ensures CardFor(p).badges == DialogBadges(p)[..|CardFor(p).badges|]
    ensures |CardFor(p).badges| + (if CardFor(p).more.Some? then CardFor(p).more.value else 0) == |p.categories|
  {
  }

  /** `photos.map(...)`: one card per photo, in the same order. */
  function Cards(photos: seq<Gallery.Photo>): (r: seq<Card>)
    ensures |r| == |photos|
    ensures forall k | 0 <= k < |r| :: r[k] == CardFor(photos[k])
  {
    seq(|photos|, k requires 0 <= k < |photos| => CardFor(photos[k]))
  }

  /** With the gallery's fresh ids, the cards' React keys are distinct. */
  lemma CardKeysDistinct(photos: seq<Gallery.Photo>, next: Gallery.Id, i: nat, j: nat)
    requires Gallery.FreshIds(photos, next)
    requires i < j < |photos|
    ensures Cards(photos)[i].photoId != Cards(photos)[j].photoId
  {
  }

  /**
   * The delete button of card `k` removes exactly the `k`-th photo, and every other photo
   * stays, in order.
   */
  lemma DeleteFromCard(photos: seq<Gallery.Photo>, next: Gallery.Id, k: nat)
    requires Gallery.FreshIds(photos, next)
    requires k < |photos|
    ensures Gallery.DeleteById(photos, Cards(photos)[k].photoId) == photos[..k] + photos[k + 1..]
  {
    forall i | 0 <= i < |photos| && i != k ensures photos[i].id != photos[k].id {
      if i < k {
        assert photos[i].id != photos[k].id;
      } else {
        assert photos[k].id != photos[i].id;
      }
    }
    DeleteOnly(photos, k);
  }

  /**
   * The gallery shows the grid its filtered list but deletes from the full list: the delete
   * button of card `k` of the filtered grid removes exactly the gallery photo that card shows,
   * and every other photo stays, in order.
   */
  lemma DeleteFromFilteredCard(photos: seq<Gallery.Photo>, next: Gallery.Id, selected: string, k: nat)
    requires Gallery.FreshIds(photos, next)
    requires k < |Gallery.FilteredPhotos(photos, selected)|
    ensures var g := Gallery.FilteredPhotos(photos, selected);
      exists i | 0 <= i < |photos| ::
        photos[i] == g[k] && Gallery.DeleteById(photos, Cards(g)[k].photoId) == photos[..i] + photos[i + 1..]
  {
    var g := Gallery.FilteredPhotos(photos, selected);
    assert g[k] in g;
    var i :| 0 <= i < |photos| && photos[i] == g[k];
    DeleteFromCard(photos, next, i);
  }

  /** Deleting the id that only the `k`-th photo carries removes that photo and nothing else. */
  lemma DeleteOnly(photos: seq<Gallery.Photo>, k: nat)
    requires k < |photos|
    requires forall i | 0 <= i < |photos| && i != k :: photos[i].id != photos[k].id
    ensures Gallery.DeleteById(photos, photos[k].id) == photos[..k] + photos[k + 1..]
  {
    var x, before, after := photos[k], photos[..k], photos[k + 1..];
    assert photos == before + [x] + after;
    assert forall i | 0 <= i < |before| :: before[i] == photos[i];
    assert forall i | 0 <= i < |after| :: after[i] == photos[k + 1 + i];
    DeleteSplit(before, x, after);
  }

  /** Deleting the id of `x` from `before + [x] + after`, when no other photo has it, leaves `before + after`. */
  lemma DeleteSplit(before: seq<Gallery.Photo>, x: Gallery.Photo, after: seq<Gallery.Photo>)
    requires forall i | 0 <= i < |before| :: before[i].id != x.id
    requires forall i | 0 <= i < |after| :: after[i].id != x.id
    ensures Gallery.DeleteById(before + [x] + after, x.id) == before + after
  {
    DeleteAround(before, x, after);
    Gallery.DeleteAbsent(before, x.id);
    Gallery.DeleteAbsent(after, x.id);
  }

  /** Deleting the id of `x` from `before + [x] + after` deletes it from both sides and drops `x`. */
  lemma DeleteAround(before: seq<Gallery.Photo>, x: Gallery.Photo, after: seq<Gallery.Photo>)
    ensures Gallery.DeleteById(before + [x] + after, x.id) == Gallery.DeleteById(before, x.id) + Gallery.DeleteById(after, x.id)
  {
    assert Gallery.DeleteById([x], x.id) == [];
    Gallery.DeleteAppend(before, [x], x.id);
    Gallery.DeleteAppend(before + [x], after, x.id);
  }
}

/**
 * `CategoryFilter`: one button for "All Photos" and one per category label. A button is
 * highlighted when the selection equals its value, and a click hands that value to the
 * gallery's `setSelectedCategory`. Labels are shown through `formatCategoryName`.
 */
module CategoryFilter {
  import opened Text
  import Gallery

  /** `category.split(',')[0].trim()`. */
  function FormatCategoryName(category: string): (r: string)
    ensures ',' !in r
    ensures Trimmed(r)
    ensures exists i :: PaddedAt(BeforeFirstComma(category), r, i)
    ensures ',' !in category ==> r == Trim(category)
  {
    var head := BeforeFirstComma(category);
    var r := Trim(head);
    FormatFacts(category, head, r);
    r
  }

  lemma FormatFacts(category: string, head: string, r: string)
    requires head == BeforeFirstComma(category) && r == Trim(head)
    ensures ',' !in r
    ensures ',' !in category ==> r == Trim(category)
  {
    NoCommaInside(head, r);
    if ',' !in category {
      NoCommaKeepsAll(category);
    }
  }

  /** A piece of a comma-free string is comma-free. */
  lemma NoCommaInside(s: string, r: string)
    requires ',' !in s
    requires exists i :: PaddedAt(s, r, i)
    ensures ',' !in r
  {
    var i :| PaddedAt(s, r, i);
    forall k | 0 <= k < |r| ensures r[k] != ',' {
      assert r[k] == s[i + k];
    }
  }

  /** Without a comma, the text before the first comma is the whole string. */
  lemma NoCommaKeepsAll(s: string)
    requires ',' !in s
    ensures BeforeFirstComma(s) == s
  {
    assert forall k | 0 <= k < |s| :: s[k] != ',';
  }

  /** Formatting a formatted name changes nothing. */
  lemma FormatIdempotent(category: string)
    ensures FormatCategoryName(FormatCategoryName(category)) == FormatCategoryName(category)
  {
    var r := FormatCategoryName(category);
    NoCommaKeepsAll(r);
    TrimOfTrimmed(r);
  }

  /** A filter button: what it shows, what a click sends to `onCategoryChange`, and whether it is highlighted. */
  datatype Button = Button(caption: string, value: string, highlighted: bool)

  const AllCaption: string := "All Photos"

  /** The button for one label: its formatted name, a click sending the full label, highlighted on an exact match. */
  function CategoryButton(category: string, selected: string): (b: Button)
    ensures b.value == category && (b.highlighted <==> selected == category)
    ensures b.caption == FormatCategoryName(category)
  {
    Button(FormatCategoryName(category), category, selected == category)
  }

  /** The button list for `categories` under selection `selected`: "All Photos" first, then one per label, in order. */
  function Buttons(categories: seq<string>, selected: string): (bs: seq<Button>)
    ensures |bs| == |categories| + 1
    ensures bs[0].caption == AllCaption && bs[0].value == Gallery.AllSentinel
    ensures bs[0].highlighted <==> selected == Gallery.AllSentinel
    ensures forall k | 1 <= k < |bs| :: bs[k] == CategoryButton(categories[k - 1], selected)
  {
    var all := Button(AllCaption, Gallery.AllSentinel, selected == Gallery.AllSentinel);
    var rest := CategoryButtons(categories, selected);
    ButtonsShift(all, rest);
    [all] + rest
  }

  lemma ButtonsShift(all: Button, rest: seq<Button>)
    ensures forall k | 1 <= k < |rest| + 1 :: ([all] + rest)[k] == rest[k - 1]
  {
  }

  /** `categories.map(...)`: one category button per label, in order. */
  function CategoryButtons(categories: seq<string>, selected: string): (bs: seq<Button>)
    ensures |bs| == |categories|
    ensures forall k | 0 <= k < |bs| :: bs[k] == CategoryButton(categories[k], selected)
  {
    seq(|categories|, k requires 0 <= k < |categories| => CategoryButton(categories[k], selected))
  }

  /** Distinct labels: at most one category button is highlighted. */
  lemma AtMostOneCategoryHighlighted(categories: seq<string>, selected: string, i: nat, j: nat)
    requires forall a, b | 0 <= a < b < |categories| :: categories[a] != categories[b]
    requires 1 <= i < j <= |categories|
    ensures !(Buttons(categories, selected)[i].highlighted && Buttons(categories, selected)[j].highlighted)
  {
    var bs := Buttons(categories, selected);
    assert bs[i].value == categories[i - 1] && bs[j].value == categories[j - 1];
  }

  /**
   * Highlighting compares the full label: when a label has a comma, selecting the name its button
   * shows (as in "tabby" for "tabby, tabby cat") does not highlight that button.
   */
  lemma HighlightUsesFullLabel(category: string, selected: string)
    requires ',' in category && selected == FormatCategoryName(category)
    ensures CategoryButton(category, selected).caption == selected
    ensures !CategoryButton(category, selected).highlighted
  {
    assert ',' !in selected;
  }

  /**
   * Clicking a category button selects its full label, and every photo carrying that label is
   * then visible: the label, lower-cased, contains itself.
   */
  lemma ClickShowsLabelledPhotos(categories: seq<string>, selected: string, k: nat, photos: seq<Gallery.Photo>, p: Gallery.Photo)
    requires k < |categories|
    requires p in photos && categories[k] in p.categories
    ensures p in Gallery.FilteredPhotos(photos, Buttons(categories, selected)[k + 1].value)
  {
    var c := categories[k];
    if c != Gallery.AllSentinel {
      var i :| 0 <= i < |p.categories| && p.categories[i] == c;
      assert OccursAt(ToLower(c), ToLower(c), 0);
      assert Includes(ToLower(p.categories[i]), ToLower(c));
    }
  }
}

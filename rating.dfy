/** The rating shown in a card's meta row (`crearRating` in script.js): a row
    of star icons, a text label, or nothing. */
module Rating {
  import opened Wrappers
  import opened Js
  import opened Text

  const STAR_ICON: string := "Imgs/start-favorite-svgrepo-com.svg"

  /** A hotel's `category` object; `name` is "" when absent. */
  datatype Category = Category(showIcon: Json, number: Json, name: string)

  /** The three outcomes of `crearRating`. */
  datatype Rating = Stars(count: nat) | Label(text: string) | NoRating

  /** `category.showIcon && Number.isInteger(category.number) && category.number > 0`. */
  predicate ShowsStars(c: Category) {
    Truthy(c.showIcon) && IsInteger(c.number) && c.number.x > 0.0
  }

  /** The decision `crearRating` takes. A non-empty name always yields a label,
      even one made only of whitespace: assigning a non-empty `textContent`
      gives the container a text child, so `childNodes.length > 0` holds. */
  function DecideRating(category: Option<Category>): (r: Rating)
    ensures category.None? ==> r == NoRating
    ensures category.Some? && ShowsStars(category.value) ==>
              r.Stars? && r.count as real == category.value.number.x && r.count > 0
    ensures category.Some? && !ShowsStars(category.value) ==>
              (r.Label? <==> category.value.name != []) && (r.Label? ==> r.text == category.value.name)
    ensures r.Label? ==> r.text != []
  {
    match category
    case None => NoRating
    case Some(c) =>
      if ShowsStars(c) then Stars(IntegerValue(c.number))
      else if c.name != [] then Label(c.name)
      else NoRating
  }

  /** The accessible label of a star group: `${category.number} estrellas`. */
  function StarsLabel(n: nat): string {
    NatToString(n) + " estrellas"
  }

  /** The rendered rating container. */
  datatype Widget = StarGroup(ariaLabel: string, icons: seq<string>) | TextLabel(text: string)

  /** `crearRating(category)`: builds the container the way the source does (a
      loop appending one star icon per point, or a text child) and returns it
      only when it has content. */
  method CreateRating(category: Option<Category>) returns (w: Option<Widget>)
    ensures w.None? <==> DecideRating(category) == NoRating
    ensures DecideRating(category).Stars? ==>
              var n := DecideRating(category).count;
              w.Some? && w.value.StarGroup? && w.value.ariaLabel == StarsLabel(n)
              && |w.value.icons| == n && forall i :: 0 <= i < n ==> w.value.icons[i] == STAR_ICON
    ensures DecideRating(category).Label? ==> w == Some(TextLabel(DecideRating(category).text))
  {
    if category.None? {
      return None;
    }
    var c := category.value;
    var childCount := 0;
    var textContent := "";
    var ariaLabel := "";
    var icons: seq<string> := [];
    if ShowsStars(c) {
      var n := IntegerValue(c.number);
      ariaLabel := StarsLabel(n);
      var i := 0;
      while i < n
        invariant 0 <= i <= n
        invariant |icons| == i && forall j :: 0 <= j < i ==> icons[j] == STAR_ICON
      {
        icons := icons + [STAR_ICON];
        i := i + 1;
      }
      childCount := 1;
    } else if c.name != [] {
      textContent := c.name;
      childCount := 1;
    }
    var hasContent := childCount > 0 || Trim(textContent) != [];
    if !hasContent {
      w := None;
    } else if ShowsStars(c) {
      w := Some(StarGroup(ariaLabel, icons));
    } else {
      w := Some(TextLabel(textContent));
    }
  }

  /** A category whose name is only whitespace still gets a text label. */
  lemma WhitespaceNameKeepsLabel()
    ensures DecideRating(Some(Category(Undefined, Undefined, "   "))) == Label("   ")
  {
  }

  /** A category with neither stars nor a name gets no rating; so does one whose
      `number` is zero, negative or fractional and that has no name. */
  lemma {:induction false} NoStarsNoName(showIcon: Json, number: Json)
    requires !(IsInteger(number) && number.x > 0.0)
    ensures DecideRating(Some(Category(showIcon, number, ""))) == NoRating
  {
  }
}

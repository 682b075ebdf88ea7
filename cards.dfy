/** One hotel card (`crearTarjetaHotel` in script.js), abstracted to the values
    it displays: title, discount badge, image, navigation state, rating, city
    and description. */
module Cards {
  import opened Wrappers
  import opened Js
  import opened Text
  import opened Formatters
  import opened City
  import opened Rating
  import opened Carousel

  const NAMELESS: string := "Hotel sin nombre"
  const DESCRIPTION_LIMIT: nat := 190

  /** A hotel record as decoded from the feed. The text fields hold "" when the
      property is absent or null; `id`, `gallery` and the category's `showIcon`
      and `number` keep their JSON value because the script tests their type. */
  datatype Hotel = Hotel(
    id: Json,
    name: string,
    description: string,
    city: string,
    country: string,
    category: Option<Category>,
    gallery: Json)

  /** An element of the fetched array: an object (or array) the script builds a
      card from, or any other value (`null`, a number, a string, a boolean),
      which it skips. */
  datatype Entry = NotObject | Record(hotel: Hotel)

  /** What a card shows. `badge` is the badge's text; `gallery` is the filtered list of image uris the
      carousel cycles through; `navHidden` says whether both navigation
      buttons are hidden. */
  datatype Card = Card(
    title: string,
    discount: Discount,
    badge: string,
    image: string,
    gallery: seq<string>,
    navHidden: bool,
    rating: Rating,
    city: string,
    description: string)

  /** `crearTarjetaHotel(hotel)`, with `d` the rounded random divisor the
      discount draws. */
  function BuildCard(entry: Entry, d: nat): (c: Option<Card>)
    ensures c.None? <==> entry.NotObject?
    ensures c.Some? ==>
              var card := c.value; var h := entry.hotel;
              card.title == (if h.name == [] then NAMELESS else h.name)
              && card.discount == ComputeDiscount(h.id, d)
              && card.badge == BadgeText(card.discount)
              && card.gallery == FilterGallery(h.gallery)
              && card.image == PrimaryImage(card.gallery)
              && (card.navHidden <==> |card.gallery| <= 1)
              && card.rating == DecideRating(h.category)
              && card.city == FormatCity(h.city, h.country)
              && card.description == Truncate(h.description, DESCRIPTION_LIMIT)
  {
    match entry
    case NotObject => None
    case Record(h) =>
      var gallery := FilterGallery(h.gallery);
      Some(Card(
        title := if h.name == [] then NAMELESS else h.name,
        discount := ComputeDiscount(h.id, d),
        badge := BadgeText(ComputeDiscount(h.id, d)),
        image := PrimaryImage(gallery),
        gallery := gallery,
        navHidden := |gallery| <= 1,
        rating := DecideRating(h.category),
        city := FormatCity(h.city, h.country),
        description := Truncate(h.description, DESCRIPTION_LIMIT)))
  }

  /** What every card shows: a title and a city label that are never empty, an
      image from its own gallery or the placeholder, a description of at most
      the limit plus the "...", a discount inside the advertised range, and a
      badge reading that discount. */
  lemma {:induction false} CardGuarantees(entry: Entry, d: nat)
    requires entry.Record?
    ensures var card := BuildCard(entry, d).value;
            card.title != [] && card.city != []
            && (card.image == PLACEHOLDER_IMAGE || card.image in card.gallery)
            && |card.description| <= DESCRIPTION_LIMIT + 3
            && (card.discount.Percent? ==> MIN_DISCOUNT <= card.discount.value <= MAX_DISCOUNT)
            && (card.discount.Percent? ==> card.badge == NatToString(card.discount.value) + "% Descuento")
            && (card.discount.NotANumber? ==> card.badge == "NaN% Descuento")
  {
  }

  /** The end of `crearTarjetaHotel` that wires the buttons: with more than one
      image a carousel starting at entry 0 and showing the card's image;
      otherwise none, so nothing can change the image. */
  method AttachCarousel(card: Card) returns (carousel: Carousel?)
    ensures (carousel == null) <==> |card.gallery| <= 1
    ensures carousel != null ==>
              fresh(carousel) && carousel.Valid() && carousel.gallery == card.gallery
              && carousel.index == 0 && carousel.src == card.image
  {
    if |card.gallery| <= 1 {
      carousel := null;
    } else {
      carousel := new Carousel(card.gallery, card.image);
    }
  }

  /** The carousel starts at entry 0 while the card shows the first non-blank
      entry; the two coincide exactly when the first entry is not blank. So a
      full turn of "next" restores the image exactly in that case. */
  lemma {:induction false} CarouselStartsOnImage(entry: Entry, d: nat)
    requires BuildCard(entry, d).Some? && !BuildCard(entry, d).value.navHidden
    ensures var card := BuildCard(entry, d).value;
            card.image == card.gallery[0] <==> NonBlank(card.gallery[0])
  {
    var card := BuildCard(entry, d).value;
    var g := card.gallery;
    if !NonBlank(g[0]) {
      if card.image == PLACEHOLDER_IMAGE {
        assert !IsSpace(PLACEHOLDER_IMAGE[0]);
      }
    }
  }

  /** The gallery `[{uri: "  "}, {uri: "x.jpg"}]` keeps both entries. */
  lemma BlankFirstGallery()
    ensures FilterGallery(Arr([Obj(map["uri" := Str("  ")]), Obj(map["uri" := Str("x.jpg")])])) == ["  ", "x.jpg"]
  {
    var items := [Obj(map["uri" := Str("  ")]), Obj(map["uri" := Str("x.jpg")])];
    assert HasStringUri(items[0]) && UriOf(items[0]) == "  ";
    assert HasStringUri(items[1]) && UriOf(items[1]) == "x.jpg";
  }

  /** A gallery whose first entry is blank: the card shows "x.jpg", yet a full
      turn of "next" on its two-image carousel lands on the blank entry. */
  lemma {:induction false} BlankFirstEntryNotRestored(h: Hotel)
    requires h.gallery == Arr([Obj(map["uri" := Str("  ")]), Obj(map["uri" := Str("x.jpg")])])
    ensures var card := BuildCard(Record(h), 1).value;
            card.image == "x.jpg" && !card.navHidden
            && card.gallery[Repeat(0, 1, |card.gallery|, |card.gallery|)] == "  "
  {
    var card := BuildCard(Record(h), 1).value;
    BlankFirstGallery();
    assert card.gallery == ["  ", "x.jpg"];
    PrimaryImageExamples();
    FullCycle(0, 2);
  }
}

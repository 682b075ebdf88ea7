/** The small pure helpers a hotel card is built from: description truncation
    (`truncarTexto`), the gallery filter and the primary image
    (`obtenerImagenPrincipal`), and the discount badge (`obtenerDescuento`). */
module Formatters {
  import opened Js
  import opened Text

  const PLACEHOLDER_IMAGE: string := "Imgs/hotel-svgrepo-com.svg"
  const ELLIPSIS: string := "..."

  // ---------------------------------------------------------------------------
  // truncarTexto

  /** `truncarTexto(valor, limite)` with "" standing for a falsy `valor`: short
      text is kept, long text is cut to `limit` characters, trimmed on both
      sides and followed by "...". */
  function Truncate(s: string, limit: nat): (r: string)
    ensures s == [] ==> r == []
    ensures |s| <= limit ==> r == s
    ensures |s| > limit ==> |r| >= 3 && r[|r| - 3..] == ELLIPSIS && |r| <= limit + 3
  {
    if s == [] then []
    else if |s| <= limit then s
    else
      var r := Trim(s[..limit]) + ELLIPSIS;
      assert r[|r| - 3..] == ELLIPSIS;
      r
  }

  /** What precedes the "..." of a truncated text is the slice of its first
      `limit` characters that starts at the first non-whitespace character, with
      only whitespace after it inside that window, and it neither starts nor
      ends with whitespace. */
  lemma {:induction false} TruncateCore(s: string, limit: nat)
    requires |s| > limit
    ensures var r := Truncate(s, limit); var a := TrimOffset(s[..limit]);
            a + |r| - 3 <= limit
    ensures var r := Truncate(s, limit); var n := |r| - 3; var a := TrimOffset(s[..limit]);
            r[..n] == s[a..a + n]
    ensures var r := Truncate(s, limit); var n := |r| - 3; var a := TrimOffset(s[..limit]);
            IsBlank(s[..a]) && IsBlank(s[a + n..limit])
    ensures var r := Truncate(s, limit); var n := |r| - 3;
            n == 0 || (!IsSpace(r[0]) && !IsSpace(r[n - 1]))
  {
    var w := s[..limit];
    var core := Trim(w);
    var r := Truncate(s, limit);
    var n := |core|;
    var a := TrimOffset(w);
    assert r == core + ELLIPSIS;
    assert r[..n] == core;
    assert core == w[a..a + n];
    assert IsBlank(w[..a]) && IsBlank(w[a + n..]);
    SliceOfPrefix(s, limit, a, n);
  }

  /** Slices of the first `limit` characters are slices of the whole text. */
  lemma {:induction false} SliceOfPrefix(s: string, limit: nat, a: nat, n: nat)
    requires a + n <= limit <= |s|
    ensures s[..limit][a..a + n] == s[a..a + n]
    ensures s[..limit][..a] == s[..a]
    ensures s[..limit][a + n..] == s[a + n..limit]
  {
  }

  /** When the text does not start with whitespace, what comes before "..." is a
      prefix of the text. */
  lemma {:induction false} TruncatePrefix(s: string, limit: nat)
    requires |s| > limit && s != [] && !IsSpace(s[0])
    ensures var r := Truncate(s, limit); r[..|r| - 3] == s[..|r| - 3]
  {
    TruncateCore(s, limit);
  }

  /** The examples `truncate("abcdefgh", 5)`, `truncate("abc", 5)` and
      `truncate("", 5)`. */
  lemma TruncateExamples()
    ensures Truncate("abcdefgh", 5) == "abcde..."
    ensures Truncate("abc", 5) == "abc"
    ensures Truncate("", 5) == ""
  {
    TrimUnchanged("abcde");
    assert "abcdefgh"[..5] == "abcde";
  }

  // ---------------------------------------------------------------------------
  // The gallery filter of crearTarjetaHotel

  /** `item && typeof item.uri === "string"`. */
  predicate HasStringUri(item: Json) {
    Truthy(item) && Get(item, "uri").Str?
  }

  function UriOf(item: Json): string
    requires HasStringUri(item)
  {
    Get(item, "uri").s
  }

  /** `items.filter((item) => item && typeof item.uri === "string")`, each kept
      entry represented by its `uri` (the only property read afterwards). */
  function KeepStringUris(items: seq<Json>): (uris: seq<string>)
    ensures |uris| <= |items|
    ensures forall u :: u in uris <==> exists k :: 0 <= k < |items| && HasStringUri(items[k]) && UriOf(items[k]) == u
    ensures (forall k :: 0 <= k < |items| ==> HasStringUri(items[k])) ==>
              |uris| == |items| && forall k :: 0 <= k < |items| ==> uris[k] == UriOf(items[k])
  {
    if items == [] then []
    else
      var rest := KeepStringUris(items[1..]);
      assert forall k :: 1 <= k < |items| ==> items[k] == items[1..][k - 1];
      if HasStringUri(items[0]) then [UriOf(items[0])] + rest else rest
  }

  /** `Array.isArray(hotel.gallery) ? hotel.gallery.filter(...) : []`. */
  function FilterGallery(gallery: Json): (uris: seq<string>)
    ensures !gallery.Arr? ==> uris == []
    ensures gallery.Arr? ==> uris == KeepStringUris(gallery.items)
  {
    if gallery.Arr? then KeepStringUris(gallery.items) else []
  }

  /** Filtering a concatenation filters each part: the kept entries keep their
      order. */
  lemma {:induction false} KeepStringUrisAppend(a: seq<Json>, b: seq<Json>)
    ensures KeepStringUris(a + b) == KeepStringUris(a) + KeepStringUris(b)
  {
    if a == [] {
      assert a + b == b;
    } else {
      assert (a + b)[0] == a[0];
      assert (a + b)[1..] == a[1..] + b;
      KeepStringUrisAppend(a[1..], b);
      if HasStringUri(a[0]) {
        assert KeepStringUris(a) == [UriOf(a[0])] + KeepStringUris(a[1..]);
        assert KeepStringUris(a + b) == [UriOf(a[0])] + KeepStringUris(a[1..] + b);
      } else {
        assert KeepStringUris(a) == KeepStringUris(a[1..]);
        assert KeepStringUris(a + b) == KeepStringUris(a[1..] + b);
      }
    }
  }

  /** Filtering twice is filtering once: every entry left has a string `uri`. */
  lemma {:induction false} KeepStringUrisIdempotent(items: seq<Json>)
    ensures var once := KeepStringUris(items);
            KeepStringUris(seq(|once|, k requires 0 <= k < |once| => Obj(map["uri" := Str(once[k])]))) == once
  {
  }

  // ---------------------------------------------------------------------------
  // obtenerImagenPrincipal

  /** `item.uri.trim()` is truthy: the uri is not all whitespace. */
  predicate NonBlank(uri: string) {
    !IsBlank(uri)
  }

  lemma {:induction false} NonBlankTrim(uri: string)
    ensures NonBlank(uri) <==> Trim(uri) != []
  {
    TrimEmpty(uri);
  }

  /** Index of the first non-blank uri, or `|gallery|` when there is none
      (the search `Array.prototype.find` performs). */
  function FirstNonBlank(gallery: seq<string>): (k: nat)
    ensures k <= |gallery|
    ensures k < |gallery| ==> NonBlank(gallery[k])
    ensures forall j :: 0 <= j < k ==> !NonBlank(gallery[j])
  {
    if gallery == [] || NonBlank(gallery[0]) then 0
    else
      var k := FirstNonBlank(gallery[1..]);
      assert forall j :: 1 <= j < k + 1 ==> gallery[j] == gallery[1..][j - 1];
      k + 1
  }

  /** `obtenerImagenPrincipal(galeria)`: the first uri that is not blank once
      trimmed, returned untrimmed, or the placeholder when there is none. */
  function PrimaryImage(gallery: seq<string>): (r: string)
    ensures r == PLACEHOLDER_IMAGE || r in gallery
    ensures (forall k :: 0 <= k < |gallery| ==> !NonBlank(gallery[k])) ==> r == PLACEHOLDER_IMAGE
    ensures (exists k :: 0 <= k < |gallery| && NonBlank(gallery[k])) ==>
              exists k :: 0 <= k < |gallery| && r == gallery[k] && NonBlank(gallery[k])
                          && forall j :: 0 <= j < k ==> !NonBlank(gallery[j])
  {
    var k := FirstNonBlank(gallery);
    if k < |gallery| then gallery[k] else PLACEHOLDER_IMAGE
  }

  /** The examples `pickPrimaryImage([])` and
      `pickPrimaryImage([{uri:"  "}, {uri:"x.jpg"}])`. */
  lemma PrimaryImageExamples()
    ensures PrimaryImage([]) == PLACEHOLDER_IMAGE
    ensures PrimaryImage(["  ", "x.jpg"]) == "x.jpg"
  {
    assert IsBlank("  ");
    assert !IsBlank("x.jpg") by { assert !IsSpace("x.jpg"[0]); }
  }

  // ---------------------------------------------------------------------------
  // obtenerDescuento

  const FALLBACK_DISCOUNT: int := 15
  const MIN_DISCOUNT: int := 10
  const MAX_DISCOUNT: int := 60

  /** The badge percentage: a number, or NaN when the random divisor rounded
      to 0 (JavaScript's `x % 0` is NaN, and so are `NaN + 10` and
      `Math.min(NaN, 60)`). */
  datatype Discount = Percent(value: int) | NotANumber

  function AbsInt(n: int): nat {
    if n < 0 then -n else n
  }

  /** `obtenerDescuento(id)` with `d = Math.round(Math.random() * 100)` passed
      in (so `0 <= d <= 100` in the source). */
  function ComputeDiscount(id: Json, d: nat): (r: Discount)
    ensures !IsInteger(id) ==> r == Percent(FALLBACK_DISCOUNT)
    ensures IsInteger(id) ==> (r.NotANumber? <==> d == 0)
    ensures r.Percent? ==> MIN_DISCOUNT <= r.value <= MAX_DISCOUNT
  {
    if !IsInteger(id) then Percent(FALLBACK_DISCOUNT)
    else if d == 0 then NotANumber
    else
      var base := (AbsInt(IntegerValue(id)) + 5) / 10 % d + MIN_DISCOUNT;
      Percent(if base < MAX_DISCOUNT then base else MAX_DISCOUNT)
  }

  /** The discount agrees with the source's formula evaluated on exact reals:
      `Math.min((Math.round(Math.abs(id / 10)) % d) + 10, 60)`. */
  lemma {:induction false} DiscountFormula(id: Json, d: nat)
    requires IsInteger(id) && d >= 1
    ensures var base := Round(Abs(id.x / 10.0)) % d + MIN_DISCOUNT;
            ComputeDiscount(id, d) == Percent(if base < MAX_DISCOUNT then base else MAX_DISCOUNT)
  {
    var n := IntegerValue(id);
    assert id.x / 10.0 == n as real / 10.0;
    RoundAbsTenth(n);
  }

  /** The clamp to 60 can only act when the divisor exceeds 50: below that the
      percentage is `10 + (round(|id / 10|) mod d)`, under `d + 10`. */
  lemma {:induction false} DiscountUnclamped(id: Json, d: nat)
    requires IsInteger(id) && 1 <= d <= 50
    ensures ComputeDiscount(id, d) == Percent(Round(Abs(id.x / 10.0)) % d + MIN_DISCOUNT)
    ensures ComputeDiscount(id, d).value < d + MIN_DISCOUNT
  {
    DiscountFormula(id, d);
  }

  /** The badge text `${pct}% Descuento`. */
  function BadgeText(discount: Discount): (t: string)
    ensures discount.Percent? && discount.value >= 0 ==>
              t == NatToString(discount.value) + "% Descuento"
    ensures discount.NotANumber? ==> t == "NaN% Descuento"
  {
    match discount
    case Percent(p) => (if p < 0 then "-" + NatToString(-p) else NatToString(p)) + "% Descuento"
    case NotANumber => "NaN% Descuento"
  }
}

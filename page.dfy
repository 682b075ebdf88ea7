/** One render pass of the page (`cargarHoteles` in script.js, with
    `updateStatus` and `ocultarStatus`): the status region, the results label
    and the grid of cards, and how a fetch outcome changes them. */
module Page {
  import opened Wrappers
  import opened Text
  import opened Cards
  import opened Fetcher

  const LOADING: string := "Cargando hoteles..."
  const NO_HOTELS: string := "No encontramos hoteles disponibles por ahora."
  const LOAD_FAILED: string := "Ocurrio un problema al cargar los hoteles. Intenta nuevamente."
  const RESULTS_SUFFIX: string := " resultados"

  /** The status region: its text and whether the hidden class is set. */
  class StatusRegion {
    var text: string
    var hidden: bool

    constructor (text: string, hidden: bool)
      ensures this.text == text && this.hidden == hidden
    {
      this.text := text;
      this.hidden := hidden;
    }

    /** `updateStatus(elemento, mensaje)`. */
    method Show(message: string)
      modifies this
      ensures text == message && !hidden
    {
      text := message;
      hidden := false;
    }

    /** `ocultarStatus(elemento)`. */
    method Hide()
      modifies this
      ensures text == [] && hidden
    {
      text := [];
      hidden := true;
    }
  }

  /** The grid container, abstracted to the cards it holds. */
  class Grid {
    var cards: seq<Card>

    constructor (cards: seq<Card>)
      ensures this.cards == cards
    {
      this.cards := cards;
    }
  }

  /** The optional results-count label. */
  class ResultsLabel {
    var text: string

    constructor (text: string)
      ensures this.text == text
    {
      this.text := text;
    }
  }

  datatype StatusView = StatusView(text: string, hidden: bool)

  /** A snapshot of the three page elements; `None` for an element the page
      does not have. */
  datatype PageView = PageView(grid: Option<seq<Card>>, status: Option<StatusView>, results: Option<string>)

  /** The cards `cargarHoteles` appends for `entries`, in order: entry `i`
      goes through `make` with the draw `draw(i)` and adds its card when there
      is one. `make` stands for `crearTarjetaHotel`; keeping it a parameter
      lets the facts about the loop be proved once, apart from what a card
      holds. */
  function Collect(entries: seq<Entry>, draw: nat -> nat, make: (Entry, nat) -> Option<Card>): (cards: seq<Card>)
    ensures |cards| <= |entries|
  {
    if entries == [] then []
    else
      var n := |entries| - 1;
      Collect(entries[..n], draw, make) + Emit(make(entries[n], draw(n)))
  }

  /** Every collected card is the card of some entry. */
  lemma {:induction false} CollectFrom(entries: seq<Entry>, draw: nat -> nat, make: (Entry, nat) -> Option<Card>)
    ensures forall c :: c in Collect(entries, draw, make) ==>
              exists i :: 0 <= i < |entries| && make(entries[i], draw(i)) == Some(c)
  {
    if entries != [] {
      var n := |entries| - 1;
      var front := entries[..n];
      CollectFrom(front, draw, make);
      forall c | c in Collect(entries, draw, make)
        ensures exists i :: 0 <= i < |entries| && make(entries[i], draw(i)) == Some(c)
      {
        if c in Collect(front, draw, make) {
          var i :| 0 <= i < n && make(front[i], draw(i)) == Some(c);
          assert front[i] == entries[i];
        } else {
          assert make(entries[n], draw(n)) == Some(c);
        }
      }
    }
  }

  /** What one entry adds to the fragment: its card, or nothing. */
  function Emit(card: Option<Card>): (added: seq<Card>)
    ensures |added| == (if card.Some? then 1 else 0)
    ensures card.Some? ==> added == [card.value]
  {
    match card
    case Some(c) => [c]
    case None => []
  }

  /** `make` builds a card exactly for the object entries, as `crearTarjetaHotel`
      does. */
  ghost predicate CardsForRecords(make: (Entry, nat) -> Option<Card>) {
    forall e, d :: make(e, d).Some? <==> e.Record?
  }

  /** One card per object entry. */
  lemma {:induction false} CollectCount(entries: seq<Entry>, draw: nat -> nat, make: (Entry, nat) -> Option<Card>)
    requires CardsForRecords(make)
    ensures |Collect(entries, draw, make)| == CountRecords(entries)
  {
    if entries != [] {
      CollectCount(entries[..|entries| - 1], draw, make);
    }
  }

  /** When every entry is an object, card `i` is the card of entry `i`. */
  lemma {:induction false} CollectAllRecords(entries: seq<Entry>, draw: nat -> nat, make: (Entry, nat) -> Option<Card>)
    requires CardsForRecords(make)
    requires forall i :: 0 <= i < |entries| ==> entries[i].Record?
    ensures |Collect(entries, draw, make)| == |entries|
    ensures forall i :: 0 <= i < |entries| ==> Some(Collect(entries, draw, make)[i]) == make(entries[i], draw(i))
  {
    if entries != [] {
      var n := |entries| - 1;
      var front := entries[..n];
      assert forall i :: 0 <= i < n ==> front[i] == entries[i];
      CollectAllRecords(front, draw, make);
      var before := Collect(front, draw, make);
      var cards := Collect(entries, draw, make);
      assert cards == before + [make(entries[n], draw(n)).value];
      forall i | 0 <= i < |entries| ensures Some(cards[i]) == make(entries[i], draw(i)) {
        if i < n {
          assert cards[i] == before[i];
        }
      }
    }
  }

  /** The draws of entries that come after `k` others. */
  function Shift(draw: nat -> nat, k: nat): (shifted: nat -> nat)
    ensures forall i: nat :: shifted(i) == draw(k + i)
  {
    (i: nat) => draw(k + i)
  }

  /** Collecting two runs of entries one after the other is collecting the
      whole array, the second run drawing from where the first stopped: the
      loop keeps no state between entries but the index. */
  lemma {:induction false} CollectAppend(a: seq<Entry>, b: seq<Entry>, draw: nat -> nat, make: (Entry, nat) -> Option<Card>)
    ensures Collect(a + b, draw, make) == Collect(a, draw, make) + Collect(b, Shift(draw, |a|), make)
    decreases |b|
  {
    if b == [] {
      assert a + b == a;
    } else {
      var m := |b| - 1;
      var sh := Shift(draw, |a|);
      CollectAppend(a, b[..m], draw, make);
      CollectLast(a, b, draw, make);
      Glue(Collect(a + b, draw, make), Collect(a + b[..m], draw, make), Collect(a, draw, make),
           Collect(b[..m], sh, make), Emit(make(b[m], sh(m))), Collect(b, sh, make));
    }
  }

  /** Collecting one more entry of an array appends what that entry adds. */
  lemma {:induction false} CollectStep(entries: seq<Entry>, i: nat, draw: nat -> nat, make: (Entry, nat) -> Option<Card>)
    requires i < |entries|
    ensures Collect(entries[..i + 1], draw, make) == Collect(entries[..i], draw, make) + Emit(make(entries[i], draw(i)))
  {
    assert entries[..i + 1][..i] == entries[..i];
  }

  /** The last entry of `a + b` is the last entry of `b`, with the same draw
      either way. */
  lemma {:induction false} CollectLast(a: seq<Entry>, b: seq<Entry>, draw: nat -> nat, make: (Entry, nat) -> Option<Card>)
    requires b != []
    ensures var m := |b| - 1; var sh := Shift(draw, |a|);
            Collect(a + b, draw, make) == Collect(a + b[..m], draw, make) + Emit(make(b[m], sh(m)))
            && Collect(b, sh, make) == Collect(b[..m], sh, make) + Emit(make(b[m], sh(m)))
  {
    var m := |b| - 1;
    var ab := a + b;
    assert ab[..|a| + m] == a + b[..m];
    assert ab[|a| + m] == b[m];
  }

  lemma {:induction false} Glue(whole: seq<Card>, front: seq<Card>, p: seq<Card>, q: seq<Card>, e: seq<Card>, back: seq<Card>)
    requires whole == front + e && front == p + q && back == q + e
    ensures whole == p + back
  {
    assert (p + q) + e == p + (q + e);
  }

  /** The cards of a fetched array, in order, one per object entry; entry `i`
      draws the divisor `draw(i)` for its discount. */
  function BuildCards(entries: seq<Entry>, draw: nat -> nat): (cards: seq<Card>)
    ensures |cards| == CountRecords(entries) <= |entries|
    ensures forall c :: c in cards ==> exists i :: 0 <= i < |entries| && BuildCard(entries[i], draw(i)) == Some(c)
  {
    CollectCount(entries, draw, BuildCard);
    CollectFrom(entries, draw, BuildCard);
    Collect(entries, draw, BuildCard)
  }

  /** When every entry is an object there is one card per entry, and card `i`
      is the card of entry `i`. */
  lemma {:induction false} BuildCardsAllRecords(entries: seq<Entry>, draw: nat -> nat)
    requires forall i :: 0 <= i < |entries| ==> entries[i].Record?
    ensures |BuildCards(entries, draw)| == |entries|
    ensures forall i :: 0 <= i < |entries| ==> Some(BuildCards(entries, draw)[i]) == BuildCard(entries[i], draw(i))
  {
    CollectAllRecords(entries, draw, BuildCard);
  }

  /** Building the cards of two runs of entries one after the other is building
      them for the whole array, the second run drawing from where the first
      stopped. */
  lemma {:induction false} BuildCardsAppend(a: seq<Entry>, b: seq<Entry>, draw: nat -> nat)
    ensures BuildCards(a + b, draw) == BuildCards(a, draw) + BuildCards(b, Shift(draw, |a|))
  {
    CollectAppend(a, b, draw, BuildCard);
  }

  /** The number of entries that are objects. */
  function CountRecords(entries: seq<Entry>): nat {
    if entries == [] then 0
    else CountRecords(entries[..|entries| - 1]) + (if entries[|entries| - 1].Record? then 1 else 0)
  }

  lemma {:induction false} CountRecordsBound(entries: seq<Entry>)
    ensures CountRecords(entries) <= |entries|
    ensures CountRecords(entries) == |entries| <==> forall i :: 0 <= i < |entries| ==> entries[i].Record?
  {
    if entries != [] {
      var n := |entries| - 1;
      CountRecordsBound(entries[..n]);
      assert forall i :: 0 <= i < n ==> entries[..n][i] == entries[i];
    }
  }

  /** The text of the results label for `n` entries: `${hoteles.length} resultados`. */
  function ResultsText(n: nat): string {
    NatToString(n) + RESULTS_SUFFIX
  }

  /** The state right after the guard: "Cargando hoteles..." shown. */
  function Loading(p: PageView): (q: PageView)
    requires p.grid.Some? && p.status.Some?
    ensures q.grid == p.grid && q.results == p.results
    ensures q.status == Some(StatusView(LOADING, false))
  {
    p.(status := Some(StatusView(LOADING, false)))
  }

  /** What the fetch outcome does to a page whose grid and status exist. */
  function Complete(p: PageView, response: Response, draw: nat -> nat): (q: PageView)
    requires p.grid.Some? && p.status.Some?
  {
    match FetchHotels(response)
    case Failed(_) => p.(status := Some(StatusView(LOAD_FAILED, false)))
    case Hotels(entries) =>
      if |entries| > 0 then
        PageView(Some(BuildCards(entries, draw)), Some(StatusView([], true)),
                 if p.results.Some? then Some(ResultsText(|entries|)) else None)
      else
        p.(status := Some(StatusView(NO_HOTELS, false)))
  }

  /** `cargarHoteles()` from its first line to its last, as a change of page
      state. */
  function RenderPass(p: PageView, response: Response, draw: nat -> nat): (q: PageView)
    // A page without a grid or a status region is left alone.
    ensures p.grid.None? || p.status.None? ==> q == p
    // Any failure shows the retry message and leaves the grid and label alone.
    ensures p.grid.Some? && p.status.Some? && FetchHotels(response).Failed? ==>
              q == p.(status := Some(StatusView(LOAD_FAILED, false)))
    // An empty result shows the "no hotels" message and leaves the grid and label alone.
    ensures p.grid.Some? && p.status.Some? && FetchHotels(response) == Hotels([]) ==>
              q == p.(status := Some(StatusView(NO_HOTELS, false)))
    // A non-empty result replaces the grid, counts every entry and hides the status.
    ensures p.grid.Some? && p.status.Some? && FetchHotels(response).Hotels? && FetchHotels(response).entries != [] ==>
              var entries := FetchHotels(response).entries;
              q.grid == Some(BuildCards(entries, draw)) && |q.grid.value| <= |entries|
              && q.status == Some(StatusView([], true))
              && (q.results.Some? <==> p.results.Some?)
              && (q.results.Some? ==> q.results.value == ResultsText(|entries|))
  {
    if p.grid.None? || p.status.None? then p
    else Complete(Loading(p), response, draw)
  }

  /** A body that is not an array renders exactly like an empty array. */
  lemma {:induction false} NotArrayIsEmpty(p: PageView, status: nat, draw: nat -> nat)
    ensures RenderPass(p, Response(status, NotArray), draw) == RenderPass(p, Response(status, Array([])), draw)
  {
  }

  /** A failing status renders the retry message whatever the body holds; the
      grid is untouched. */
  lemma {:induction false} HttpFailureKeepsGrid(p: PageView, status: nat, body: Body, draw: nat -> nat)
    requires p.grid.Some? && p.status.Some? && !IsOk(status)
    ensures var q := RenderPass(p, Response(status, body), draw);
            q.grid == p.grid && q.results == p.results
            && q.status == Some(StatusView(LOAD_FAILED, false))
  {
  }

  /** After a successful non-empty render the label's number is the number of
      entries, and the grid holds one card per object entry, so fewer cards
      than the label counts when some entries are skipped. */
  lemma {:induction false} RenderedCounts(p: PageView, entries: seq<Entry>, status: nat, draw: nat -> nat)
    requires p.grid.Some? && p.status.Some? && p.results.Some? && IsOk(status) && entries != []
    ensures var q := RenderPass(p, Response(status, Array(entries)), draw);
            var shown := q.results.value;
            |shown| > |RESULTS_SUFFIX| && IsDigits(shown[..|shown| - |RESULTS_SUFFIX|])
            && ParseNat(shown[..|shown| - |RESULTS_SUFFIX|]) == |entries|
            && |q.grid.value| == CountRecords(entries)
            && (|q.grid.value| == |entries| <==> forall i :: 0 <= i < |entries| ==> entries[i].Record?)
  {
    var q := RenderPass(p, Response(status, Array(entries)), draw);
    assert q.results == Some(ResultsText(|entries|)) && q.grid == Some(BuildCards(entries, draw));
    ResultsTextParses(|entries|);
    CountRecordsBound(entries);
  }

  /** The label's text reads back as the number it was built from. */
  lemma {:induction false} ResultsTextParses(n: nat)
    ensures var shown := ResultsText(n);
            |shown| > |RESULTS_SUFFIX| && shown[|shown| - |RESULTS_SUFFIX|..] == RESULTS_SUFFIX
            && IsDigits(shown[..|shown| - |RESULTS_SUFFIX|])
            && ParseNat(shown[..|shown| - |RESULTS_SUFFIX|]) == n
  {
    var shown := ResultsText(n);
    assert shown[..|shown| - |RESULTS_SUFFIX|] == NatToString(n);
    ParseNatToString(n);
  }

  /** Two hotel records: two cards, "2 resultados", and a hidden, empty status. */
  lemma {:induction false} TwoRecords(p: PageView, h1: Hotel, h2: Hotel, draw: nat -> nat)
    requires p.grid.Some? && p.status.Some? && p.results.Some?
    ensures var q := RenderPass(p, Response(200, Array([Record(h1), Record(h2)])), draw);
            |q.grid.value| == 2 && q.results == Some("2 resultados")
            && q.status == Some(StatusView([], true))
  {
    var es := [Record(h1), Record(h2)];
    CountRecordsBound(es);
    assert NatToString(2) == [DigitChar(2)] == "2";
    assert ResultsText(2) == "2 resultados";
  }

  /** A non-empty array of entries that are all skipped still clears the grid
      and hides the status. */
  lemma {:induction false} OnlySkippedEntries(p: PageView, n: nat, draw: nat -> nat)
    requires p.grid.Some? && p.status.Some? && n > 0
    ensures var q := RenderPass(p, Response(200, Array(seq(n, _ => NotObject))), draw);
            q.grid == Some([]) && q.status == Some(StatusView([], true))
  {
    var es := seq(n, _ => NotObject);
    assert |BuildCards(es, draw)| == CountRecords(es);
    CountRecordsNone(es);
  }

  lemma {:induction false} CountRecordsNone(entries: seq<Entry>)
    requires forall i :: 0 <= i < |entries| ==> entries[i].NotObject?
    ensures CountRecords(entries) == 0
  {
    if entries != [] {
      CountRecordsNone(entries[..|entries| - 1]);
    }
  }

  /** The page as the three elements show it. */
  ghost function View(grid: Grid?, status: StatusRegion?, results: ResultsLabel?): PageView
    reads grid, status, results
  {
    PageView(
      if grid == null then None else Some(grid.cards),
      if status == null then None else Some(StatusView(status.text, status.hidden)),
      if results == null then None else Some(results.text))
  }

  /** The `forEach` of `cargarHoteles`: each entry's card, when there is one,
      is appended to the fragment in turn. */
  method BuildFragment(hoteles: seq<Entry>, draw: nat -> nat) returns (fragment: seq<Card>)
    ensures fragment == BuildCards(hoteles, draw)
    ensures |fragment| == CountRecords(hoteles) <= |hoteles|
  {
    fragment := [];
    var i := 0;
    while i < |hoteles|
      invariant 0 <= i <= |hoteles|
      invariant fragment == BuildCards(hoteles[..i], draw)
    {
      var card := BuildCard(hoteles[i], draw(i));
      CollectStep(hoteles, i, draw, BuildCard);
      if card.Some? {
        fragment := fragment + [card.value];
      }
      i := i + 1;
    }
    assert hoteles[..i] == hoteles;
  }

  /** `cargarHoteles()` on the page's elements (`null` for one the page lacks),
      with the network's answer and the random draws passed in. */
  method LoadHotels(grid: Grid?, status: StatusRegion?, results: ResultsLabel?,
                    response: Response, draw: nat -> nat)
    modifies grid, status, results
    ensures View(grid, status, results) == RenderPass(old(View(grid, status, results)), response, draw)
  {
    if grid == null || status == null {
      return;
    }
    status.Show(LOADING);
    match FetchHotels(response)
    case Failed(_) =>
      status.Show(LOAD_FAILED);
    case Hotels(hoteles) =>
      if |hoteles| > 0 {
        if results != null {
          results.text := ResultsText(|hoteles|);
        }
        var fragment := BuildFragment(hoteles, draw);
        grid.cards := fragment;
        status.Hide();
      } else {
        status.Show(NO_HOTELS);
      }
  }
}

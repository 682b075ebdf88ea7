/** The image carousel of a card (`configurarGaleria` in script.js): a cursor
    over the card's gallery that the previous and next buttons move by one,
    wrapping around at both ends, and that rewrites the image source. */
module Carousel {

  /** The cursor after `mover(step)`: `(index + step + total) % total`. The
      dividend is never negative here, so JavaScript's `%` and Dafny's agree. */
  function Advance(index: int, step: int, total: int): (r: int)
    requires 0 <= index < total && (step == 1 || step == -1)
    ensures 0 <= r < total
    ensures step == 1 ==> r == (if index == total - 1 then 0 else index + 1)
    ensures step == -1 ==> r == (if index == 0 then total - 1 else index - 1)
  {
    StepMod(index, step, total);
    (index + step + total) % total
  }

  lemma {:induction false} StepMod(index: int, step: int, total: int)
    requires 0 <= index < total && (step == 1 || step == -1)
    ensures step == 1 ==> (index + step + total) % total == (if index == total - 1 then 0 else index + 1)
    ensures step == -1 ==> (index + step + total) % total == (if index == 0 then total - 1 else index - 1)
  {
    if step == 1 {
      if index == total - 1 {
        ModOf(index + step + total, total, 2, 0);
      } else {
        ModOf(index + step + total, total, 1, index + 1);
      }
    } else {
      if index == 0 {
        ModOf(index + step + total, total, 0, total - 1);
      } else {
        ModOf(index + step + total, total, 1, index - 1);
      }
    }
  }

  /** A step back undoes a step forward. */
  lemma {:induction false} PrevAfterNext(index: int, total: int)
    requires 0 <= index < total
    ensures Advance(Advance(index, 1, total), -1, total) == index
  {
  }

  /** A step forward undoes a step back. */
  lemma {:induction false} NextAfterPrev(index: int, total: int)
    requires 0 <= index < total
    ensures Advance(Advance(index, -1, total), 1, total) == index
  {
  }

  /** The cursor after `k` presses of the same button. */
  function Repeat(index: int, step: int, total: int, k: nat): (r: int)
    requires 0 <= index < total && (step == 1 || step == -1)
    ensures 0 <= r < total
  {
    if k == 0 then index else Advance(Repeat(index, step, total, k - 1), step, total)
  }

  /** The remainder of `q * n + r` by `n` is `r`. */
  lemma {:induction false} ModOf(y: int, n: int, q: int, r: int)
    requires n > 0 && 0 <= r < n && y == q * n + r
    ensures y % n == r
  {
    var d := y / n - q;
    assert d * n == r - y % n;
    if d >= 1 {
      MulAtLeast(d, n);
    } else if d <= -1 {
      MulAtLeast(-d, n);
    }
  }

  lemma {:induction false} MulAtLeast(a: int, n: int)
    requires a >= 1 && n > 0
    ensures a * n >= n
  {
  }

  /** One step forward on remainders. */
  lemma {:induction false} ModNext(x: int, n: int)
    requires n > 0
    ensures (x + 1) % n == if x % n == n - 1 then 0 else x % n + 1
  {
    var q, r := x / n, x % n;
    if r == n - 1 {
      ModOf(x + 1, n, q + 1, 0);
    } else {
      ModOf(x + 1, n, q, r + 1);
    }
  }

  /** One step back on remainders. */
  lemma {:induction false} ModPrev(x: int, n: int)
    requires n > 0
    ensures (x - 1) % n == if x % n == 0 then n - 1 else x % n - 1
  {
    var q, r := x / n, x % n;
    if r == 0 {
      ModOf(x - 1, n, q - 1, n - 1);
    } else {
      ModOf(x - 1, n, q, r - 1);
    }
  }

  /** `k` presses of "next" move the cursor `k` places forward, cyclically. */
  lemma {:induction false} RepeatNext(index: int, total: int, k: nat)
    requires 0 <= index < total
    ensures Repeat(index, 1, total, k) == (index + k) % total
  {
    if k == 0 {
      ModOf(index, total, 0, index);
    } else {
      RepeatNext(index, total, k - 1);
      ModNext(index + k - 1, total);
    }
  }

  /** `k` presses of "previous" move the cursor `k` places back, cyclically. */
  lemma {:induction false} RepeatPrev(index: int, total: int, k: nat)
    requires 0 <= index < total
    ensures Repeat(index, -1, total, k) == (index - k) % total
  {
    if k == 0 {
      ModOf(index, total, 0, index);
    } else {
      RepeatPrev(index, total, k - 1);
      ModPrev(index - k + 1, total);
    }
  }

  /** Pressing either button `total` times brings the cursor back to where it
      started. */
  lemma {:induction false} FullCycle(index: int, total: int)
    requires 0 <= index < total
    ensures Repeat(index, 1, total, total) == index
    ensures Repeat(index, -1, total, total) == index
  {
    RepeatNext(index, total, total);
    RepeatPrev(index, total, total);
    ModOf(index + total, total, 1, index);
    ModOf(index - total, total, -1, index);
  }

  /** The state `configurarGaleria` closes over: the gallery (fixed once the
      card is built), the cursor `indice`, and the image element's `src`. */
  class Carousel {
    const gallery: seq<string>
    var index: int
    var src: string

    ghost predicate Valid()
      reads this
    {
      |gallery| > 1 && 0 <= index < |gallery|
    }

    /** Attaching the carousel: the cursor starts at 0 and the image keeps the
        source the card was built with. The source attaches it only to a
        gallery of more than one entry. */
    constructor (gallery: seq<string>, initialSrc: string)
      requires |gallery| > 1
      ensures Valid()
      ensures this.gallery == gallery && index == 0 && src == initialSrc
    {
      this.gallery := gallery;
      index := 0;
      src := initialSrc;
    }

    /** `mover(step)` followed by `actualizar()`. */
    method Move(step: int)
      requires Valid() && (step == 1 || step == -1)
      modifies this
      ensures Valid()
      ensures index == Advance(old(index), step, |gallery|)
      ensures src == gallery[index]
    {
      index := (index + step + |gallery|) % |gallery|;
      src := gallery[index];
    }

    /** The "next" button. */
    method Next()
      requires Valid()
      modifies this
      ensures Valid()
      ensures index == Advance(old(index), 1, |gallery|) && src == gallery[index]
    {
      Move(1);
    }

    /** The "previous" button. */
    method Prev()
      requires Valid()
      modifies this
      ensures Valid()
      ensures index == Advance(old(index), -1, |gallery|) && src == gallery[index]
    {
      Move(-1);
    }
  }

  /** Pressing "next" `k` times: the cursor is `k` places further on, and after
      at least one press the image shows the entry under the cursor. */
  method PressNext(c: Carousel, k: nat)
    requires c.Valid()
    modifies c
    ensures c.Valid()
    ensures c.index == (old(c.index) + k) % |c.gallery|
    ensures k > 0 ==> c.src == c.gallery[c.index]
    ensures k == 0 ==> c.src == old(c.src)
  {
    var i := 0;
    while i < k
      invariant c.Valid() && 0 <= i <= k
      invariant c.index == Repeat(old(c.index), 1, |c.gallery|, i)
      invariant i > 0 ==> c.src == c.gallery[c.index]
      invariant i == 0 ==> c.src == old(c.src)
    {
      c.Next();
      i := i + 1;
    }
    RepeatNext(old(c.index), |c.gallery|, k);
  }

  /** Pressing "next" once per gallery entry restores the cursor, and restores
      the image whenever the image showed the entry under the cursor at the
      start. */
  method FullTurn(c: Carousel)
    requires c.Valid()
    modifies c
    ensures c.Valid() && c.index == old(c.index)
    ensures old(c.src) == c.gallery[old(c.index)] ==> c.src == old(c.src)
  {
    PressNext(c, |c.gallery|);
    FullCycle(old(c.index), |c.gallery|);
    RepeatNext(old(c.index), |c.gallery|, |c.gallery|);
  }

  /** "previous" then "next", or "next" then "previous", changes nothing once
      the image shows the entry under the cursor. */
  method BackAndForth(c: Carousel, forwardFirst: bool)
    requires c.Valid() && c.src == c.gallery[c.index]
    modifies c
    ensures c.Valid() && c.index == old(c.index) && c.src == old(c.src)
  {
    if forwardFirst {
      c.Next();
      c.Prev();
      PrevAfterNext(old(c.index), |c.gallery|);
    } else {
      c.Prev();
      c.Next();
      NextAfterPrev(old(c.index), |c.gallery|);
    }
  }
}

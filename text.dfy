/** The string operations the page script calls (`toLowerCase`, `toUpperCase`,
    `trim`, `split(/\s+/)`, `join(" ")` and number-to-text conversion), on
    strings as sequences of characters.

    Case mapping is ASCII plus the one accented pair the city aliases need
    ('Ú' and 'ú'); whitespace is the ASCII set that `trim` and `\s` share
    (space, tab, line feed, vertical tab, form feed, carriage return). */
module Text {

  predicate IsSpace(c: char) {
    c == ' ' || c == '\t' || c == '\n' || c == '\U{000B}' || c == '\U{000C}' || c == '\r'
  }

  predicate IsBlank(s: string) {
    forall i :: 0 <= i < |s| ==> IsSpace(s[i])
  }

  predicate NoSpace(s: string) {
    forall i :: 0 <= i < |s| ==> !IsSpace(s[i])
  }

  function LowerChar(c: char): char {
    if 'A' <= c <= 'Z' then (c as int + 32) as char
    else if c == 'Ú' then 'ú'
    else c
  }

  function UpperChar(c: char): char {
    if 'a' <= c <= 'z' then (c as int - 32) as char
    else if c == 'ú' then 'Ú'
    else c
  }

  /** `s.toLowerCase()`. */
  function Lower(s: string): (r: string)
    ensures |r| == |s|
    ensures forall i :: 0 <= i < |s| ==> r[i] == LowerChar(s[i])
  {
    seq(|s|, i requires 0 <= i < |s| => LowerChar(s[i]))
  }

  lemma LowerUpper(c: char)
    requires LowerChar(c) == c
    ensures LowerChar(UpperChar(c)) == c
  {
  }

  lemma SpaceCase(c: char)
    ensures IsSpace(LowerChar(c)) == IsSpace(c)
    ensures IsSpace(UpperChar(c)) == IsSpace(c)
  {
  }

  lemma {:induction false} LowerAppend(a: string, b: string)
    ensures Lower(a + b) == Lower(a) + Lower(b)
  {
    assert Lower(a + b) == Lower(a) + Lower(b);
  }

  /** Length of the whitespace run at the end of `s`. */
  function TrailingRun(s: string): (j: nat)
    ensures j <= |s| && IsBlank(s[|s| - j..])
    ensures j < |s| ==> !IsSpace(s[|s| - j - 1])
  {
    if s != [] && IsSpace(s[|s| - 1]) then
      var k := TrailingRun(s[..|s| - 1]);
      ExtendBlankSuffix(s, k);
      k + 1
    else 0
  }

  /** A string that is not all whitespace has its leading and trailing runs
      apart. */
  lemma {:induction false} RunsApart(s: string)
    ensures SpaceRun(s) < |s| ==> SpaceRun(s) + TrailingRun(s) < |s|
  {
    BlankSuffixAt(s, TrailingRun(s), SpaceRun(s));
  }

  lemma {:induction false} BlankSuffixAt(s: string, j: nat, i: nat)
    requires j <= |s| && IsBlank(s[|s| - j..])
    ensures |s| - j <= i < |s| ==> IsSpace(s[i])
  {
    if |s| - j <= i < |s| {
      assert s[i] == s[|s| - j..][i - (|s| - j)];
    }
  }

  lemma {:induction false} ExtendBlankSuffix(s: string, k: nat)
    requires s != [] && IsSpace(s[|s| - 1]) && k <= |s| - 1
    requires IsBlank(s[..|s| - 1][|s| - 1 - k..])
    ensures IsBlank(s[|s| - (k + 1)..])
    ensures k + 1 < |s| ==> s[|s| - k - 2] == s[..|s| - 1][|s| - 1 - k - 1]
  {
    forall i | |s| - (k + 1) <= i < |s| - 1 ensures IsSpace(s[i]) {
      assert s[i] == s[..|s| - 1][|s| - 1 - k..][i - (|s| - 1 - k)];
    }
  }

  /** Where the trimmed text starts: the length of the leading whitespace. */
  function TrimOffset(s: string): (a: nat)
    ensures a <= |s|
  {
    SpaceRun(s)
  }

  /** `s.trim()`: the slice of `s` that starts at `TrimOffset(s)`, with only
      whitespace outside it and no whitespace at either of its ends. */
  function Trim(s: string): (r: string)
    ensures TrimOffset(s) + |r| <= |s| && r == s[TrimOffset(s)..TrimOffset(s) + |r|]
    ensures IsBlank(s[..TrimOffset(s)]) && IsBlank(s[TrimOffset(s) + |r|..])
    ensures r == [] || (!IsSpace(r[0]) && !IsSpace(r[|r| - 1]))
  {
    var a := SpaceRun(s);
    if a == |s| then []
    else
      RunsApart(s);
      s[a..|s| - TrailingRun(s)]
  }

  /** A string with no whitespace at either end trims to itself. */
  lemma {:induction false} TrimUnchanged(s: string)
    requires s == [] || (!IsSpace(s[0]) && !IsSpace(s[|s| - 1]))
    ensures Trim(s) == s
  {
    if s != [] {
      assert SpaceRun(s) == 0 && TrailingRun(s) == 0;
    }
  }

  /** The trimmed string is empty exactly when the string is all whitespace. */
  lemma {:induction false} TrimEmpty(s: string)
    ensures (Trim(s) == []) == IsBlank(s)
  {
    if SpaceRun(s) == |s| {
      assert s[..|s|] == s;
    } else {
      RunsApart(s);
    }
  }

  /** Index of the first whitespace character of `s`, or `|s|` when there is none. */
  function FirstSpace(s: string): (i: nat)
    ensures i <= |s| && NoSpace(s[..i])
    ensures i < |s| ==> IsSpace(s[i])
  {
    if s == [] || IsSpace(s[0]) then 0
    else
      var k := FirstSpace(s[1..]);
      assert s[..k + 1] == [s[0]] + s[1..][..k];
      k + 1
  }

  /** Length of the whitespace run at the start of `s`. */
  function SpaceRun(s: string): (j: nat)
    ensures j <= |s| && IsBlank(s[..j])
    ensures j < |s| ==> !IsSpace(s[j])
  {
    if s != [] && IsSpace(s[0]) then
      var k := SpaceRun(s[1..]);
      assert s[..k + 1] == [s[0]] + s[1..][..k];
      k + 1
    else 0
  }

  /** `s.split(/\s+/)`: the pieces of `s` between maximal runs of whitespace. */
  function Split(s: string): (ws: seq<string>)
    ensures |ws| >= 1
    ensures forall k :: 0 <= k < |ws| ==> NoSpace(ws[k])
    ensures forall k :: 0 < k < |ws| - 1 ==> ws[k] != []
    ensures (ws[0] == []) == (s == [] || IsSpace(s[0]))
    ensures (ws[|ws| - 1] == []) == (s == [] || IsSpace(s[|s| - 1]))
    decreases |s|
  {
    var i := FirstSpace(s);
    if i == |s| then [s]
    else
      var j := i + SpaceRun(s[i..]);
      var rest := Split(s[j..]);
      if j == |s| then
        assert s[|s| - 1] == s[i..][..j - i][j - i - 1];
        [s[..i], []]
      else
        assert s[j..][|s[j..]| - 1] == s[|s| - 1];
        [s[..i]] + rest
  }

  /** `ws.join(sep)`. */
  function Join(ws: seq<string>, sep: string): (r: string)
    ensures ws == [] ==> r == []
  {
    if ws == [] then []
    else if |ws| == 1 then ws[0]
    else ws[0] + sep + Join(ws[1..], sep)
  }

  /** `s` with each maximal run of whitespace replaced by a single space: the
      reference the split-and-join of the page is measured against. */
  function Collapse(s: string): (r: string)
    decreases |s|
  {
    if s == [] then []
    else if IsSpace(s[0]) then
      assert SpaceRun(s) >= 1;
      [' '] + Collapse(s[SpaceRun(s)..])
    else [s[0]] + Collapse(s[1..])
  }

  /** A whitespace-free prefix passes through `Collapse` unchanged. */
  lemma {:induction false} CollapseSplitAt(s: string, i: nat)
    requires i <= |s| && NoSpace(s[..i])
    ensures Collapse(s) == s[..i] + Collapse(s[i..])
  {
    if i > 0 {
      assert s[0] == s[..i][0] && !IsSpace(s[0]);
      assert s[1..][..i - 1] == s[..i][1..];
      NoSpaceTail(s[..i]);
      CollapseSplitAt(s[1..], i - 1);
      assert s[1..][i - 1..] == s[i..];
      assert [s[0]] + s[1..][..i - 1] == s[..i];
    }
  }

  lemma {:induction false} NoSpaceTail(w: string)
    requires w != [] && NoSpace(w)
    ensures NoSpace(w[1..])
  {
    forall k | 0 <= k < |w| - 1 ensures !IsSpace(w[1..][k]) {
      assert w[1..][k] == w[k + 1];
    }
  }

  /** A run of whitespace starting at `i` collapses to one space. */
  lemma {:induction false} CollapseRun(s: string, i: nat)
    requires i < |s| && IsSpace(s[i])
    ensures Collapse(s[i..]) == [' '] + Collapse(s[i + SpaceRun(s[i..])..])
  {
    var t := s[i..];
    assert t[0] == s[i];
    assert t[SpaceRun(t)..] == s[i + SpaceRun(t)..];
  }

  lemma {:induction false} JoinFront(w: string, ws: seq<string>, sep: string)
    requires ws != []
    ensures Join([w] + ws, sep) == w + sep + Join(ws, sep)
  {
    assert ([w] + ws)[1..] == ws;
  }

  lemma {:induction false} Chain(x: string, a: string, y: string, b: string, z: string)
    requires x == a + y && y == b + z
    ensures x == a + b + z
  {
    assert a + (b + z) == a + b + z;
  }

  /** Splitting on whitespace runs and joining with one space is collapsing
      every whitespace run to one space. */
  lemma {:induction false} SplitCollapse(s: string)
    ensures Join(Split(s), " ") == Collapse(s)
    decreases |s|
  {
    var i := FirstSpace(s);
    if i == |s| {
      assert Split(s) == [s];
      CollapseSplitAt(s, |s|);
      assert s[..|s|] == s && s[|s|..] == [];
    } else {
      var j := i + SpaceRun(s[i..]);
      assert Collapse(s) == s[..i] + [' '] + Collapse(s[j..]) by {
        CollapseSplitAt(s, i);
        CollapseRun(s, i);
        Chain(Collapse(s), s[..i], Collapse(s[i..]), [' '], Collapse(s[j..]));
      }
      if j == |s| {
        assert Split(s) == [s[..i], []];
        JoinFront(s[..i], [[]], " ");
      } else {
        SplitCollapse(s[j..]);
        assert Split(s) == [s[..i]] + Split(s[j..]);
        JoinFront(s[..i], Split(s[j..]), " ");
      }
    }
  }

  /** The decimal digits of `n`, most significant first, without leading zeros:
      JavaScript's `String(n)` for a non-negative integer. */
  function NatToString(n: nat): (s: string)
    ensures |s| >= 1 && IsDigits(s)
    ensures |s| > 1 ==> s[0] != '0'
  {
    if n < 10 then [DigitChar(n)]
    else NatToString(n / 10) + [DigitChar(n % 10)]
  }

  function DigitChar(d: nat): (c: char)
    requires d < 10
    ensures '0' <= c <= '9'
  {
    ('0' as int + d) as char
  }

  predicate IsDigits(s: string) {
    forall i :: 0 <= i < |s| ==> '0' <= s[i] <= '9'
  }

  /** The number a string of decimal digits denotes. */
  function ParseNat(s: string): nat
    requires IsDigits(s)
  {
    if s == [] then 0
    else ParseNat(s[..|s| - 1]) * 10 + (s[|s| - 1] as int - '0' as int)
  }

  /** Printing a number and reading it back gives the number. */
  lemma {:induction false} ParseNatToString(n: nat)
    ensures ParseNat(NatToString(n)) == n
  {
    if n >= 10 {
      var s := NatToString(n);
      assert s[..|s| - 1] == NatToString(n / 10);
      ParseNatToString(n / 10);
    }
  }

  /** Different numbers print differently. */
  lemma {:induction false} NatToStringInjective(m: nat, n: nat)
    requires NatToString(m) == NatToString(n)
    ensures m == n
  {
    ParseNatToString(m);
    ParseNatToString(n);
  }
}

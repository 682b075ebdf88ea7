/** The city label of a hotel card (`formatearCiudad` in script.js): a fixed set
    of spellings of Cancun collapses to "Cancun"; any other city is title-cased
    word by word. */
module City {
  import opened Text

  const CANCUN: string := "Cancun"

  /** The lower-cased, trimmed spellings that display as "Cancun". */
  predicate IsCancunAlias(normalized: string) {
    normalized == "cancun" || normalized == "cancún"
    || normalized == "mexico - cancun" || normalized == "cancun, qroo"
  }

  /** `w.charAt(0).toUpperCase() + w.slice(1)`. */
  function Capitalize(w: string): (r: string)
    ensures |r| == |w|
  {
    if w == [] then [] else [UpperChar(w[0])] + w[1..]
  }

  function CapitalizeAll(ws: seq<string>): (r: seq<string>)
    ensures |r| == |ws|
    ensures forall k :: 0 <= k < |ws| ==> r[k] == Capitalize(ws[k])
  {
    if ws == [] then [] else [Capitalize(ws[0])] + CapitalizeAll(ws[1..])
  }

  /** What a split on whitespace runs can produce: at least one word, no word
      holding whitespace, and no empty word except possibly the first and the last. */
  predicate Words(ws: seq<string>) {
    |ws| >= 1
    && (forall k :: 0 <= k < |ws| ==> NoSpace(ws[k]))
    && (forall k :: 0 < k < |ws| - 1 ==> ws[k] != [])
  }

  /** No two whitespace characters side by side, and every whitespace character
      a plain space. */
  predicate SingleSpaced(s: string) {
    (forall i :: 0 <= i < |s| ==> IsSpace(s[i]) ==> s[i] == ' ')
    && (forall i :: 0 <= i < |s| - 1 ==> !(IsSpace(s[i]) && IsSpace(s[i + 1])))
  }

  predicate IsLower(s: string) {
    forall i :: 0 <= i < |s| ==> LowerChar(s[i]) == s[i]
  }

  /** The words of the lower-cased city, each capitalized (script.js:249-252). */
  function TitleWords(city: string): seq<string> {
    CapitalizeAll(Split(Lower(city)))
  }

  /** The default branch of `formatearCiudad`: the title-cased words joined by
      single spaces. */
  function TitleCase(city: string): string {
    Join(TitleWords(city), " ")
  }

  /** `formatearCiudad(ciudad, pais)`, with "" standing for an absent value. */
  function FormatCity(city: string, country: string): (r: string)
    ensures r != []
    ensures city == [] ==> r == (if country == [] then CANCUN else country)
    ensures city != [] && IsCancunAlias(Lower(Trim(city))) ==> r == CANCUN
    ensures city != [] && !IsCancunAlias(Lower(Trim(city))) ==>
              SingleSpaced(r) && Split(r) == CapitalizeAll(Split(Lower(city)))
              && Lower(r) == Collapse(Lower(city))
  {
    if city == [] then
      (if country == [] then CANCUN else country)
    else if IsCancunAlias(Lower(Trim(city))) then
      CANCUN
    else
      TitleCaseNonEmpty(city);
      TitleCaseSingleSpaced(city);
      TitleCaseWords(city);
      TitleCaseLower(city);
      TitleCase(city)
  }

  // ---------------------------------------------------------------------------
  // Facts about joining and splitting words

  lemma {:induction false} JoinCons(ws: seq<string>, sep: string)
    requires |ws| >= 2
    ensures Join(ws, sep) == ws[0] + sep + Join(ws[1..], sep)
  {
  }

  /** A join of words starts with the first word. */
  lemma {:induction false} JoinStart(ws: seq<string>, sep: string)
    requires |ws| >= 1
    ensures |Join(ws, sep)| >= |ws[0]| && Join(ws, sep)[..|ws[0]|] == ws[0]
  {
  }

  lemma {:induction false} JoinNonEmpty(ws: seq<string>, sep: string)
    requires |ws| >= 2 && sep != []
    ensures Join(ws, sep) != []
  {
  }

  lemma {:induction false} CapitalizeNoSpace(w: string)
    requires NoSpace(w)
    ensures NoSpace(Capitalize(w))
  {
    if w != [] {
      SpaceCase(w[0]);
      var r := Capitalize(w);
      assert r[0] == UpperChar(w[0]);
      assert forall i :: 1 <= i < |w| ==> r[i] == w[i];
    }
  }

  /** Words are still words after capitalizing each of them. */
  lemma {:induction false} CapitalizeAllWords(ws: seq<string>)
    requires Words(ws)
    ensures Words(CapitalizeAll(ws))
  {
    var cs := CapitalizeAll(ws);
    forall k | 0 <= k < |ws| ensures NoSpace(cs[k]) {
      CapitalizeNoSpace(ws[k]);
    }
  }

  /** Joining words with single spaces never puts two whitespace characters
      side by side. */
  lemma {:induction false} JoinSingleSpaced(ws: seq<string>)
    requires Words(ws)
    ensures SingleSpaced(Join(ws, " "))
  {
    if |ws| >= 2 {
      var t := Join(ws[1..], " ");
      JoinSingleSpaced(ws[1..]);
      var r := ws[0] + " " + t;
      assert Join(ws, " ") == r;
      if |ws| == 2 && ws[1] == [] {
        assert r == ws[0] + " ";
      } else {
        JoinStart(ws[1..], " ");
        assert t[0] == ws[1][0];
      }
      forall i | 0 <= i < |r| ensures IsSpace(r[i]) ==> r[i] == ' ' {
        if i > |ws[0]| { assert r[i] == t[i - |ws[0]| - 1]; }
      }
      forall i | 0 <= i < |r| - 1 ensures !(IsSpace(r[i]) && IsSpace(r[i + 1])) {
        if i > |ws[0]| { assert r[i] == t[i - |ws[0]| - 1] && r[i + 1] == t[i - |ws[0]|]; }
      }
    }
  }

  lemma {:induction false} FirstSpaceNone(s: string)
    requires NoSpace(s)
    ensures FirstSpace(s) == |s|
  {
  }

  /** Splitting words joined by single spaces gives the words back. */
  lemma {:induction false} SplitJoin(ws: seq<string>)
    requires Words(ws)
    ensures Split(Join(ws, " ")) == ws
  {
    if |ws| == 1 {
      FirstSpaceNone(ws[0]);
    } else {
      var t := Join(ws[1..], " ");
      assert Join(ws, " ") == ws[0] + " " + t by {
        JoinCons(ws, " ");
      }
      assert t == [] || !IsSpace(t[0]) by {
        if ws[1..] != [[]] {
          JoinStart(ws[1..], " ");
          assert t[0] == ws[1][0];
        }
      }
      SplitWordSpace(ws[0], t);
      WordsTail(ws);
      SplitJoin(ws[1..]);
      assert [ws[0]] + ws[1..] == ws;
    }
  }

  lemma {:induction false} WordsTail(ws: seq<string>)
    requires Words(ws) && |ws| >= 2
    ensures Words(ws[1..])
  {
    assert forall k :: 0 <= k < |ws| - 1 ==> ws[1..][k] == ws[k + 1];
  }

  /** A word, one space, then text that does not start with whitespace: the
      word is the first piece and the rest splits on its own. */
  lemma {:induction false} SplitWordSpace(w: string, t: string)
    requires NoSpace(w) && (t == [] || !IsSpace(t[0]))
    ensures Split(w + " " + t) == [w] + Split(t)
  {
    var s := w + " " + t;
    assert FirstSpace(s) == |w| by {
      FirstSpaceNone(w);
      assert s == w + (" " + t);
      FirstSpacePrefix(w, " " + t);
    }
    assert s[..|w|] == w && s[|w|..] == " " + t && s[|w| + 1..] == t;
    assert SpaceRun(" " + t) == 1 by {
      assert (" " + t)[1..] == t;
    }
    if t == [] {
      assert Split(s) == [w, []];
    }
  }

  /** A first whitespace that comes after a whitespace-free prefix is where the
      rest begins. */
  lemma {:induction false} FirstSpacePrefix(w: string, rest: string)
    requires NoSpace(w) && rest != [] && IsSpace(rest[0])
    ensures FirstSpace(w + rest) == |w|
  {
    if w != [] {
      assert (w + rest)[1..] == w[1..] + rest;
      FirstSpacePrefix(w[1..], rest);
    }
  }

  /** Every word of a split of lower-case text is lower-case. */
  lemma {:induction false} SplitLower(s: string)
    requires IsLower(s)
    ensures forall k :: 0 <= k < |Split(s)| ==> IsLower(Split(s)[k])
    decreases |s|
  {
    var f := FirstSpace(s);
    if f < |s| {
      var j := f + SpaceRun(s[f..]);
      assert IsLower(s[..f]) by {
        forall i | 0 <= i < f ensures LowerChar(s[..f][i]) == s[..f][i] {
          assert s[..f][i] == s[i];
        }
      }
      if j < |s| {
        assert IsLower(s[j..]) by {
          forall i | 0 <= i < |s| - j ensures LowerChar(s[j..][i]) == s[j..][i] {
            assert s[j..][i] == s[j + i];
          }
        }
        SplitLower(s[j..]);
        assert Split(s) == [s[..f]] + Split(s[j..]);
      } else {
        assert Split(s) == [s[..f], []];
      }
    } else {
      assert Split(s) == [s];
    }
  }

  lemma {:induction false} LowerIsLower(s: string)
    ensures IsLower(Lower(s))
  {
  }

  lemma {:induction false} LowerCapitalize(w: string)
    requires IsLower(w)
    ensures Lower(Capitalize(w)) == w
  {
    if w != [] {
      LowerUpper(w[0]);
      LowerAppend([UpperChar(w[0])], w[1..]);
      assert Lower(w[1..]) == w[1..];
    }
  }

  /** Lower-casing a join is joining the lower-cased words. */
  lemma {:induction false} LowerJoin(ws: seq<string>)
    requires forall k :: 0 <= k < |ws| ==> IsLower(ws[k])
    ensures Lower(Join(CapitalizeAll(ws), " ")) == Join(ws, " ")
  {
    if |ws| == 1 {
      LowerCapitalize(ws[0]);
    } else if |ws| >= 2 {
      var cs := CapitalizeAll(ws);
      assert cs[1..] == CapitalizeAll(ws[1..]);
      LowerJoin(ws[1..]);
      LowerCapitalize(ws[0]);
      LowerAppend(cs[0], " " + Join(cs[1..], " "));
      LowerAppend(" ", Join(cs[1..], " "));
    }
  }

  // ---------------------------------------------------------------------------
  // What the default branch promises

  /** The title-cased city never holds two whitespace characters in a row, and
      its only whitespace is plain spaces: runs of whitespace, leading and
      trailing ones included, collapse to one space. */
  lemma {:induction false} TitleCaseSingleSpaced(city: string)
    ensures SingleSpaced(TitleCase(city))
  {
    CapitalizeAllWords(Split(Lower(city)));
    JoinSingleSpaced(TitleWords(city));
  }

  /** Splitting the result again gives exactly the capitalized words of the
      lower-cased city. */
  lemma {:induction false} TitleCaseWords(city: string)
    ensures Split(TitleCase(city)) == CapitalizeAll(Split(Lower(city)))
  {
    CapitalizeAllWords(Split(Lower(city)));
    SplitJoin(TitleWords(city));
  }

  /** Lower-casing the result gives the lower-cased city with each whitespace run
      replaced by one space: title-casing changes only letter case and spacing. */
  lemma {:induction false} TitleCaseLower(city: string)
    ensures Lower(TitleCase(city)) == Collapse(Lower(city))
  {
    LowerIsLower(city);
    SplitLower(Lower(city));
    LowerJoin(Split(Lower(city)));
    SplitCollapse(Lower(city));
  }

  /** Splitting on whitespace runs does not see how long the runs are: text and
      its collapsed form split into the same words. */
  lemma {:induction false} SplitIgnoresSpacing(s: string)
    ensures Split(Collapse(s)) == Split(s)
  {
    SplitCollapse(s);
    SplitJoin(Split(s));
  }

  /** Title-casing a title-cased city changes nothing. */
  lemma {:induction false} TitleCaseIdempotent(city: string)
    ensures TitleCase(TitleCase(city)) == TitleCase(city)
  {
    TitleCaseLower(city);
    SplitIgnoresSpacing(Lower(city));
  }

  /** A non-empty city never title-cases to the empty string. */
  lemma {:induction false} TitleCaseNonEmpty(city: string)
    requires city != []
    ensures TitleCase(city) != []
  {
    var ws := TitleWords(city);
    if |ws| == 1 {
      assert ws[0] == Capitalize(Split(Lower(city))[0]);
      assert Split(Lower(city)) == [Lower(city)];
    } else {
      JoinNonEmpty(ws, " ");
    }
  }

  // ---------------------------------------------------------------------------
  // The source's own examples

  /** "CANCÚN" shows as "Cancun", whatever the country. */
  lemma AccentedAlias()
    ensures FormatCity("CANCÚN", "Mexico") == CANCUN
  {
    TrimUnchanged("CANCÚN");
    assert Lower("CANCÚN") == "cancún";
  }

  /** A missing city shows the country, or "Cancun" when that is missing too. */
  lemma NoCity()
    ensures FormatCity("", "Spain") == "Spain"
    ensures FormatCity("", "") == CANCUN
  {
  }

  /** A lower-case city with a missing country: "playa del carmen" shows as
      "Playa Del Carmen". */
  lemma PlayaDelCarmen()
    ensures FormatCity("playa del carmen", "") == "Playa" + " " + "Del" + " " + "Carmen"
  {
    PlayaNotAlias();
    PlayaWords();
    TitleThree("playa del carmen", "playa", "del", "carmen");
    CapitalizeWords();
  }

  lemma CapitalizeWords()
    ensures Capitalize("playa") == "Playa" && Capitalize("del") == "Del" && Capitalize("carmen") == "Carmen"
  {
  }

  /** A city of three words title-cases to the three capitalized words. */
  lemma {:induction false} TitleThree(city: string, a: string, b: string, c: string)
    requires Split(Lower(city)) == [a, b, c]
    ensures TitleCase(city) == Capitalize(a) + " " + Capitalize(b) + " " + Capitalize(c)
  {
    var cs := CapitalizeAll([a, b, c]);
    assert cs == [Capitalize(a), Capitalize(b), Capitalize(c)];
    JoinThree(Capitalize(a), Capitalize(b), Capitalize(c));
  }

  lemma PlayaWords()
    ensures Split(Lower("playa del carmen")) == ["playa", "del", "carmen"]
  {
    PlayaLower();
    SplitThree("playa", "del", "carmen");
  }

  lemma PlayaLower()
    ensures Lower("playa del carmen") == "playa" + " " + "del" + " " + "carmen"
  {
    var c := "playa del carmen";
    assert Lower(c) == c;
  }

  /** Three non-empty words joined by single spaces split back into them. */
  lemma {:induction false} SplitThree(a: string, b: string, c: string)
    requires a != [] && b != [] && c != [] && NoSpace(a) && NoSpace(b) && NoSpace(c)
    ensures Split(a + " " + b + " " + c) == [a, b, c]
  {
    JoinThree(a, b, c);
    SplitJoin([a, b, c]);
  }

  lemma PlayaNotAlias()
    ensures !IsCancunAlias(Lower(Trim("playa del carmen")))
  {
    TrimUnchanged("playa del carmen");
    NotAliasByLength(Lower("playa del carmen"));
  }

  /** The aliases are 6, 12 and 15 characters long. */
  lemma {:induction false} NotAliasByLength(normalized: string)
    requires |normalized| != 6 && |normalized| != 12 && |normalized| != 15
    ensures !IsCancunAlias(normalized)
  {
  }

  lemma {:induction false} JoinThree(a: string, b: string, c: string)
    ensures Join([a, b, c], " ") == a + " " + b + " " + c
  {
    JoinFront(b, [c], " ");
    JoinFront(a, [b, c], " ");
    assert [a] + [b, c] == [a, b, c];
    assert [b] + [c] == [b, c];
  }

  /** Doubled spaces inside an alias defeat the alias: "cancun,  qroo" is not
      recognised, and its label is the title-cased spelling, not "Cancun". */
  lemma SpacedAliasIsNotAlias()
    ensures !IsCancunAlias(Lower(Trim("cancun,  qroo")))
  {
    TrimUnchanged("cancun,  qroo");
    NotAliasByLength(Lower("cancun,  qroo"));
  }
}

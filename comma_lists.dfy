/**
 * The comma-separated list conversions that both the paper mapper and the
 * project mapper define (`stringToList` and `listToString`), with
 * `String.split(",")` and `String.join(",", list)` written out.
 */
module CommaLists {
  import opened Wrappers
  import opened Text

  /** Every piece between commas, empty pieces included: one more piece than commas. */
  function SplitAll(s: string): (r: seq<string>)
    ensures |r| >= 1
    ensures forall k :: 0 <= k < |r| ==> ',' !in r[k]
    decreases |s|
  {
    var i := IndexOf(s, ',');
    if i == -1 then [s] else [s[..i]] + SplitAll(s[i + 1..])
  }

  /** Drops the empty strings at the end of a list. */
  function DropTrailingEmpty(l: seq<string>): (r: seq<string>)
    ensures |r| <= |l| && r == l[..|r|]
    ensures r != [] ==> r[|r| - 1] != []
    ensures forall k :: |r| <= k < |l| ==> l[k] == []
  {
    if l != [] && l[|l| - 1] == [] then DropTrailingEmpty(l[..|l| - 1]) else l
  }

  /** `s.split(",")`: when no comma occurs the array is `{s}`; otherwise the
      pieces with trailing empty strings removed (leading ones are kept). */
  function JavaSplit(s: string): seq<string> {
    if ',' !in s then [s] else DropTrailingEmpty(SplitAll(s))
  }

  /** `String.join(",", l)`. */
  function Join(l: seq<string>): string {
    if |l| == 0 then []
    else if |l| == 1 then l[0]
    else l[0] + "," + Join(l[1..])
  }

  /** `stringToList`: null for null or blank input, otherwise the comma-split pieces. */
  function StringToList(str: Option<string>): (r: Option<seq<string>>)
    ensures r.None? <==> (str.None? || IsBlank(str.value))
    ensures r.Some? ==> r.value == JavaSplit(str.value)
  {
    if str.None? || Trim(str.value) == [] then None
    else
      TrimEmptyIffBlank(str.value);
      Some(JavaSplit(str.value))
  }

  /** `listToString`: null for a null or empty list, otherwise the elements joined with ",". */
  function ListToString(list: Option<seq<string>>): (r: Option<string>)
    ensures r.None? <==> (list.None? || list.value == [])
    ensures r.Some? ==> r.value == Join(list.value)
  {
    if list.None? || list.value == [] then None else Some(Join(list.value))
  }

  /** Joining a list of two or more: the head, a comma, and the joined tail. */
  lemma JoinCons(a: string, l: seq<string>)
    requires |l| >= 1
    ensures Join([a] + l) == a + "," + Join(l)
  {
    assert ([a] + l)[1..] == l;
  }

  /** Joining the pieces gives the string back. */
  lemma {:induction false} JoinSplitAll(s: string)
    ensures Join(SplitAll(s)) == s
    decreases |s|
  {
    var i := IndexOf(s, ',');
    if i != -1 {
      var rest := s[i + 1..];
      JoinSplitAll(rest);
      JoinCons(s[..i], SplitAll(rest));
      SplitAround(s, i);
      assert [s[i]] == ",";
    }
  }

  /** Splitting a join of comma-free elements gives the elements back. */
  lemma {:induction false} SplitAllJoin(l: seq<string>)
    requires |l| >= 1
    requires forall k :: 0 <= k < |l| ==> ',' !in l[k]
    ensures SplitAll(Join(l)) == l
  {
    if |l| > 1 {
      var s := Join(l);
      assert s == l[0] + "," + Join(l[1..]);
      assert s[|l[0]|] == ',';
      assert s[..|l[0]|] == l[0];
      assert IndexOf(s, ',') == |l[0]|;
      assert s[|l[0]| + 1..] == Join(l[1..]);
      SplitAllJoin(l[1..]);
    }
  }

  /** A join of comma-free elements has a comma exactly when there are two elements or more. */
  lemma {:induction false} JoinHasComma(l: seq<string>)
    requires |l| >= 1
    requires forall k :: 0 <= k < |l| ==> ',' !in l[k]
    ensures ',' in Join(l) <==> |l| > 1
  {
    if |l| > 1 {
      assert Join(l)[|l[0]|] == ',';
    }
  }

  /** `stringToList(listToString(l)) == l` for a non-empty list whose elements
      hold no comma, whose last element is non-empty and whose join is not blank. */
  lemma ListRoundTrip(l: seq<string>)
    requires |l| >= 1
    requires forall k :: 0 <= k < |l| ==> ',' !in l[k]
    requires l[|l| - 1] != []
    requires !IsBlank(Join(l))
    ensures StringToList(ListToString(Some(l))) == Some(l)
  {
    var s := Join(l);
    assert ListToString(Some(l)) == Some(s);
    assert StringToList(Some(s)) == Some(JavaSplit(s));
    JoinHasComma(l);
    if |l| == 1 {
      assert l == [l[0]];
    } else {
      SplitAllJoin(l);
      assert JavaSplit(s) == DropTrailingEmpty(l);
    }
  }

  /** Without the non-empty-last-element condition the round trip loses the
      trailing empty element: `["a", ""]` joins to `"a,"`, which splits to `["a"]`. */
  lemma TrailingEmptyElementIsLost()
    ensures ListToString(Some(["a", ""])) == Some("a,")
    ensures StringToList(Some("a,")) == Some(["a"])
  {
    JoinSample();
    SplitBackSample();
  }

  lemma JoinSample()
    ensures ListToString(Some(["a", ""])) == Some("a,")
  {
    assert Join(["a", ""]) == "a,";
  }

  lemma SplitBackSample()
    ensures StringToList(Some("a,")) == Some(["a"])
  {
    SplitSample();
    assert !IsBlank("a,") by { assert !Trimmable("a,"[0]); }
    assert ',' in "a,";
    assert DropTrailingEmpty(["a", ""]) == ["a"];
  }

  /** The pieces of "a,": "a" and the empty text after the comma. */
  lemma SplitSample()
    ensures SplitAll("a,") == ["a", ""]
  {
    assert IndexOf("a,", ',') == 1;
    assert "a,"[2..] == [];
    assert SplitAll("") == [""];
    assert "a,"[..1] == "a";
  }

  /** `listToString(stringToList(s)) == s` for a non-blank string that does not end with a comma. */
  lemma StringRoundTrip(s: string)
    requires !IsBlank(s)
    requires s[|s| - 1] != ','
    ensures ListToString(StringToList(Some(s))) == Some(s)
  {
    if ',' in s {
      var pieces := SplitAll(s);
      LastPieceNonEmpty(s);
      assert pieces[|pieces| - 1] == LastPiece(s);
      assert DropTrailingEmpty(pieces) == pieces;
      JoinSplitAll(s);
    }
  }

  /** The last piece of a split: the text after the last comma. */
  function LastPiece(s: string): string {
    var p := SplitAll(s);
    p[|p| - 1]
  }

  /** The last piece is a suffix that is either the whole string or preceded by a comma. */
  lemma {:induction false} LastPieceIsSuffix(s: string)
    ensures |LastPiece(s)| <= |s|
    ensures LastPiece(s) == s[|s| - |LastPiece(s)|..]
    ensures |LastPiece(s)| == |s| || s[|s| - |LastPiece(s)| - 1] == ','
    decreases |s|
  {
    var i := IndexOf(s, ',');
    if i != -1 {
      var rest := s[i + 1..];
      LastPieceIsSuffix(rest);
      var q := SplitAll(rest);
      var last := LastPiece(rest);
      var p := SplitAll(s);
      assert p == [s[..i]] + q;
      assert LastPiece(s) == last;
      assert rest[|rest| - |last|..] == s[|s| - |last|..];
      if |last| < |rest| {
        assert s[|s| - |last| - 1] == rest[|rest| - |last| - 1];
      }
    }
  }

  /** So the last piece is non-empty when the string does not end with a comma. */
  lemma LastPieceNonEmpty(s: string)
    requires s != [] && s[|s| - 1] != ','
    ensures LastPiece(s) != []
  {
    LastPieceIsSuffix(s);
  }
}

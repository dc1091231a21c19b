/** Where a note's references are, by position, and that a renaming writes the new identifier there and
    changes nothing else. */
module NotePlaces {
  import opened ResourceId
  import opened NoteRemap
  import opened NoteRemapLines

  // ---------------------------------------------------------------- renamed at given places

  // `out` is s with the 31 characters from each of the places on renamed, and all others as they were.
  ghost predicate Placed(s: string, out: string, f: Renaming, places: set<int>) {
    && |out| == |s|
    && (forall k :: k in places ==> 0 <= k && k + 31 <= |s| && out[k..k + 31] == f(s[k..k + 31]))
    && (forall i :: 0 <= i < |s| && Free(places, i) ==> out[i] == s[i])
  }

  // The position is in no reference at these places.
  ghost predicate Free(places: set<int>, i: int) {
    forall k :: k in places ==> !(k <= i < k + 31)
  }

  function Shift(places: set<int>, d: int): set<int> {
    set k | k in places :: k + d
  }

  lemma PlacedNowhere(s: string, f: Renaming)
    ensures Placed(s, s, f, {})
  {
  }

  lemma PlacedOne(s: string, f: Renaming)
    requires IsRef(s) && |f(s)| == 31
    ensures Placed(s, f(s), f, {0})
  {
    assert s[0..31] == s && f(s)[0..31] == f(s);
    forall i | 0 <= i < |s| ensures !Free({0}, i) { assert 0 in {0}; }
  }

  lemma FreeParts(a: set<int>, b: set<int>, d: int, i: int)
    requires Free(a + Shift(b, d), i)
    ensures Free(a, i) && Free(b, i - d)
  {
    forall k | k in b ensures !(k <= i - d < k + 31) { assert k + d in a + Shift(b, d); }
    forall k | k in a ensures !(k <= i < k + 31) { assert k in a + Shift(b, d); }
  }

  lemma PlacedAppend(s: string, out: string, places: set<int>, s': string, out': string, places': set<int>, f: Renaming)
    requires Placed(s, out, f, places) && Placed(s', out', f, places')
    ensures Placed(s + s', out + out', f, places + Shift(places', |s|))
  {
    hide Free;
    forall k | k in places + Shift(places', |s|)
      ensures 0 <= k && k + 31 <= |s + s'| && (out + out')[k..k + 31] == f((s + s')[k..k + 31])
    {
      if k in places {
        assert (s + s')[k..k + 31] == s[k..k + 31] && (out + out')[k..k + 31] == out[k..k + 31];
      } else {
        var m :| m in places' && k == m + |s|;
        assert (s + s')[k..k + 31] == s'[m..m + 31] && (out + out')[k..k + 31] == out'[m..m + 31];
      }
    }
    forall i | 0 <= i < |s + s'| && Free(places + Shift(places', |s|), i) ensures (out + out')[i] == (s + s')[i] {
      FreeParts(places, places', |s|, i);
    }
  }

  // ---------------------------------------------------------------- references in a line

  // A reference stands at k, and none that counts overlaps it from the left.
  predicate Leftmost(s: string, k: int)
    decreases k
  {
    RefAt(s, k) && forall j :: 0 <= j < k && k < j + 31 ==> !Leftmost(s, j)
  }

  function LeftmostRefs(s: string): set<int> {
    set k | 0 <= k < |s| && Leftmost(s, k)
  }

  lemma RefLater(s: string, d: nat, k: int)
    requires d <= |s| && k >= d
    ensures RefAt(s, k) <==> RefAt(s[d..], k - d)
  {
    if RefAt(s, k) { assert forall i :: k + 4 <= i < k + 31 ==> s[d..][i - d] == s[i]; }
    if RefAt(s[d..], k - d) { assert forall i :: k + 4 <= i < k + 31 ==> s[i] == s[d..][i - d]; }
  }

  lemma {:induction false} LeftmostAfterOther(s: string, k: int)
    requires s != "" && !RefAt(s, 0) && 1 <= k
    ensures Leftmost(s, k) <==> Leftmost(s[1..], k - 1)
    decreases k
  {
    hide RefAt;
    RefLater(s, 1, k);
    forall j | 1 <= j < k ensures Leftmost(s, j) <==> Leftmost(s[1..], j - 1) { LeftmostAfterOther(s, j); }
    assert !Leftmost(s, 0);
    if Leftmost(s[1..], k - 1) {
      forall j | 0 <= j < k && k < j + 31 ensures !Leftmost(s, j) { if j >= 1 { assert !Leftmost(s[1..], j - 1); } }
    }
    if Leftmost(s, k) {
      forall j | 0 <= j < k - 1 && k - 1 < j + 31 ensures !Leftmost(s[1..], j) { assert !Leftmost(s, j + 1); }
    }
  }

  lemma NotInside(s: string, k: int)
    requires RefAt(s, 0) && 0 < k < 31
    ensures !Leftmost(s, k)
  {
    hide RefAt;
    assert Leftmost(s, 0);
  }

  lemma {:induction false} LeftmostAfterRef(s: string, k: int)
    requires RefAt(s, 0) && 31 <= k
    ensures Leftmost(s, k) <==> Leftmost(s[31..], k - 31)
    decreases k
  {
    hide RefAt;
    RefLength(s);
    RefLater(s, 31, k);
    forall j | 31 <= j < k ensures Leftmost(s, j) <==> Leftmost(s[31..], j - 31) { LeftmostAfterRef(s, j); }
    if Leftmost(s[31..], k - 31) {
      forall j | 0 <= j < k && k < j + 31 ensures !Leftmost(s, j) {
        if j < 31 { NotInside(s, j); } else { assert !Leftmost(s[31..], j - 31); }
      }
    }
    if Leftmost(s, k) {
      forall j | 0 <= j < k - 31 && k - 31 < j + 31 ensures !Leftmost(s[31..], j) { assert !Leftmost(s, j + 31); }
    }
  }

  lemma RefLength(s: string)
    requires RefAt(s, 0)
    ensures |s| >= 31 && IsRef(s[..31])
  {
  }

  lemma {:induction false} LineRenamed(s: string, f: Renaming)
    requires KeepsShape(f)
    ensures Placed(s, Render(RefPieces(s), f), f, LeftmostRefs(s))
    decreases |s|
  {
    hide RefAt, Placed, KeepsShape, Leftmost, IsRef;
    if s == "" {
      PlacedNowhere(s, f);
      assert LeftmostRefs(s) == {};
    } else if RefAt(s, 0) {
      RefLength(s);
      ShapeKept(f, s[..31]);
      PlacedOne(s[..31], f);
      LineRenamed(s[31..], f);
      PlacedAppend(s[..31], f(s[..31]), {0}, s[31..], Render(RefPieces(s[31..]), f), LeftmostRefs(s[31..]), f);
      assert s[..31] + s[31..] == s;
      LeftmostSplit(s);
      HeadRendered(Ref(s[..31]), RefPieces(s[31..]), f);
    } else {
      PlacedNowhere(s[..1], f);
      LineRenamed(s[1..], f);
      PlacedAppend(s[..1], s[..1], {}, s[1..], Render(RefPieces(s[1..]), f), LeftmostRefs(s[1..]), f);
      assert s[..1] + s[1..] == s && s[..1] == [s[0]];
      LeftmostStep(s);
      HeadRendered(Lit(s[0]), RefPieces(s[1..]), f);
    }
  }

  lemma HeadRendered(p: Piece, ps: seq<Piece>, f: Renaming)
    ensures Render([p] + ps, f) == Text(p, f) + Render(ps, f)
  {
    assert ([p] + ps)[1..] == ps;
  }

  lemma ShapeKept(f: Renaming, id: string)
    requires KeepsShape(f) && IsRef(id)
    ensures |f(id)| == 31
  {
  }

  lemma LeftmostSplit(s: string)
    requires RefAt(s, 0)
    ensures |s| >= 31 && LeftmostRefs(s) == {0} + Shift(LeftmostRefs(s[31..]), 31)
  {
    hide RefAt;
    RefLength(s);
    assert Leftmost(s, 0);
    forall k ensures k in LeftmostRefs(s) <==> k in {0} + Shift(LeftmostRefs(s[31..]), 31) {
      if 0 < k < 31 { NotInside(s, k); }
      if k >= 31 {
        LeftmostAfterRef(s, k);
        if k in LeftmostRefs(s) { assert k - 31 in LeftmostRefs(s[31..]); }
      }
    }
  }

  lemma LeftmostStep(s: string)
    requires s != "" && !RefAt(s, 0)
    ensures LeftmostRefs(s) == {} + Shift(LeftmostRefs(s[1..]), 1)
  {
    hide RefAt;
    assert !Leftmost(s, 0);
    forall k ensures k in LeftmostRefs(s) <==> k in Shift(LeftmostRefs(s[1..]), 1) {
      if k >= 1 {
        LeftmostAfterOther(s, k);
        if k in LeftmostRefs(s) { assert k - 1 in LeftmostRefs(s[1..]); }
      }
    }
  }

  // ---------------------------------------------------------------- references in a text

  // The identifier of a page attribute starts at k; `before` is whether a word character precedes s.
  predicate Attribute(before: bool, s: string, k: int) {
    && 6 <= k && k + 31 < |s|
    && s[k - 6] == 'p' && s[k - 5] == 'a' && s[k - 4] == 'g' && s[k - 3] == 'e' && s[k - 2] == '=' && s[k - 1] == '"'
    && (if k == 6 then !before else !Word(s[k - 7]))
    && RefAt(s, k) && s[k + 31] == '"'
  }

  // A Shape tag opens at p.
  predicate Opens(s: string, p: int) {
    && 0 <= p && p + 6 < |s|
    && s[p] == '<' && s[p + 1] == 'S' && s[p + 2] == 'h' && s[p + 3] == 'a' && s[p + 4] == 'p' && s[p + 5] == 'e'
    && !Word(s[p + 6])
  }

  // It runs from p to the first closing bracket, at g, with k in between.
  predicate Encloses(s: string, p: int, g: int, k: int) {
    && Opens(s, p) && p < k < g < |s| && s[g] == '>' && forall i :: p <= i < g ==> s[i] != '>'
  }

  ghost predicate InTag(s: string, k: int) {
    exists p, g :: Encloses(s, p, g, k)
  }

  ghost predicate TextPlace(s: string, k: int) {
    Attribute(false, s, k) && InTag(s, k)
  }

  ghost function TextPlaces(s: string): set<int> {
    set k | 0 <= k < |s| && TextPlace(s, k)
  }

  function Attributes(before: bool, s: string): set<int> {
    set k | 0 <= k < |s| && Attribute(before, s, k)
  }

  // Attributes do not overlap.
  lemma AttributesApart(before: bool, s: string, k: int)
    requires Attribute(before, s, 6) && Attribute(before, s, k) && k != 6
    ensures k >= 44
  {
    assert s[k - 2] == '=' && s[37] == '"' && s[9] == '_' && s[5] == '"';
    assert forall i :: 10 <= i < 37 ==> Alphanumeric(s[i]);
  }

  lemma AttributeLater(before: bool, s: string, d: nat, k: int)
    requires 1 <= d <= |s| && k >= d + 6
    ensures Attribute(before, s, k) <==> Attribute(Word(s[d - 1]), s[d..], k - d)
  {
    hide Word;
    RefLater(s, d, k);
  }

  lemma AttributesSplit(before: bool, s: string)
    requires Attribute(before, s, 6)
    ensures |s| >= 38 && Attributes(before, s) == {6} + Shift(Attributes(false, s[38..]), 38)
  {
    hide Attribute;
    AttributeBounds(before, s, 6);
    forall k ensures k in Attributes(before, s) <==> k in {6} + Shift(Attributes(false, s[38..]), 38) {
      AttributeBounds(before, s, k);
      AttributeBounds(false, s[38..], k - 38);
      if k in Attributes(before, s) && k != 6 { AttributesApart(before, s, k); }
      if k >= 44 {
        AttributeLater(before, s, 38, k);
        QuoteIsNoWord(before, s);
        if k in Attributes(before, s) { assert k - 38 in Attributes(false, s[38..]); }
      }
    }
  }

  lemma QuoteIsNoWord(before: bool, s: string)
    requires Attribute(before, s, 6)
    ensures !Word(s[37])
  {
  }

  lemma AttributeBounds(before: bool, s: string, k: int)
    ensures Attribute(before, s, k) ==> 6 <= k && k + 31 < |s|
  {
  }

  lemma AttributesStep(before: bool, s: string)
    requires s != "" && !Attribute(before, s, 6)
    ensures Attributes(before, s) == {} + Shift(Attributes(Word(s[0]), s[1..]), 1)
  {
    hide Attribute, Word;
    forall k ensures k in Attributes(before, s) <==> k in Shift(Attributes(Word(s[0]), s[1..]), 1) {
      AttributeBounds(before, s, k);
      AttributeBounds(Word(s[0]), s[1..], k - 1);
      if k >= 7 {
        AttributeLater(before, s, 1, k);
        if k in Attributes(before, s) { assert k - 1 in Attributes(Word(s[0]), s[1..]); }
      }
    }
  }

  lemma SamePredicate(before: bool, s: string)
    ensures AttributeAt(before, s) <==> Attribute(before, s, 6)
  {
  }

  // Within a tag every page attribute is renamed.
  lemma {:induction false} TagRenamed(before: bool, s: string, f: Renaming)
    requires KeepsShape(f)
    ensures Placed(s, Render(TagPieces(before, s), f), f, Attributes(before, s))
    decreases |s|
  {
    hide RefAt, Placed, KeepsShape, IsRef, AttributeAt, Attribute, Word, Shift;
    SamePredicate(before, s);
    if s == "" {
      PlacedNowhere(s, f);
      assert Attributes(before, s) == {};
    } else if AttributeAt(before, s) {
      AttributesSplit(before, s);
      TagRenamed(false, s[38..], f);
      OneAttribute(before, s, f);
      var out := Render(TagPieces(false, s[38..]), f);
      PlacedAppend(s[..38], s[..6] + f(s[6..37]) + s[37..38], {6}, s[38..], out, Attributes(false, s[38..]), f);
      assert s[..38] + s[38..] == s;
      AttributeRendered(s, TagPieces(false, s[38..]), f);
    } else {
      PlacedNowhere(s[..1], f);
      TagRenamed(Word(s[0]), s[1..], f);
      PlacedAppend(s[..1], s[..1], {}, s[1..], Render(TagPieces(Word(s[0]), s[1..]), f), Attributes(Word(s[0]), s[1..]), f);
      assert s[..1] + s[1..] == s && s[..1] == [s[0]];
      AttributesStep(before, s);
      HeadRendered(Lit(s[0]), TagPieces(Word(s[0]), s[1..]), f);
    }
  }

  lemma AttributeRendered(s: string, ps: seq<Piece>, f: Renaming)
    requires |s| >= 38
    ensures Render(Lits(s[..6]) + [Ref(s[6..37])] + Lits(s[37..38]) + ps, f) == s[..6] + f(s[6..37]) + s[37..38] + Render(ps, f)
  {
    hide Lits, Render;
    LitsPlain(s[..6], f);
    LitsPlain(s[37..38], f);
    RenderAppend(Lits(s[..6]) + [Ref(s[6..37])] + Lits(s[37..38]), ps, f);
    RenderAppend(Lits(s[..6]) + [Ref(s[6..37])], Lits(s[37..38]), f);
    RenderAppend(Lits(s[..6]), [Ref(s[6..37])], f);
    OneRendered(Ref(s[6..37]), f);
  }

  lemma OneRendered(p: Piece, f: Renaming)
    ensures Render([p], f) == Text(p, f)
  {
    assert [p][1..] == [] && Text(p, f) + "" == Text(p, f);
  }

  lemma OneAttribute(before: bool, s: string, f: Renaming)
    requires KeepsShape(f) && Attribute(before, s, 6)
    ensures |s| >= 38 && Placed(s[..38], s[..6] + f(s[6..37]) + s[37..38], f, {6})
  {
    hide Placed, KeepsShape, Word, Shift;
    var id := s[6..37];
    assert IsRef(id) by { RefLater(s, 6, 6); assert s[6..][..31] == id; RefPart(s[6..]); }
    ShapeKept(f, id);
    PlacedNowhere(s[..6], f);
    PlacedOne(id, f);
    PlacedNowhere(s[37..38], f);
    PlacedAppend(s[..6], s[..6], {}, id, f(id), {0}, f);
    PlacedAppend(s[..6] + id, s[..6] + f(id), {} + Shift({0}, 6), s[37..38], s[37..38], {}, f);
    assert s[..6] + id + s[37..38] == s[..38];
    ShiftOne(6, 37);
  }

  lemma ShiftOne(d: int, e: int)
    ensures {} + Shift({0}, d) + Shift({}, e) == {d}
  {
    assert 0 in {0};
  }

  lemma RefPart(s: string)
    requires RefAt(s, 0)
    ensures IsRef(s[..31])
  {
  }

  // ---------------------------------------------------------------- texts

  lemma EnclosedLater(s: string, d: nat, p: int, g: int, k: int)
    requires d <= |s| && p >= d
    ensures Encloses(s, p, g, k) <==> Encloses(s[d..], p - d, g - d, k - d)
  {
    hide Word;
    if Encloses(s[d..], p - d, g - d, k - d) {
      forall i | p <= i < g ensures s[i] != '>' { assert s[d..][i - d] != '>'; }
    }
    if Encloses(s, p, g, k) {
      forall i | p - d <= i < g - d ensures s[d..][i] != '>' { assert s[i + d] != '>'; }
    }
  }

  // The attribute of an identifier in a tag lies behind the tag's opening.
  lemma BehindOpening(s: string, p: int, k: int)
    requires Opens(s, p) && Attribute(false, s, k) && p < k
    ensures p + 6 <= k - 7
  {
    assert s[k - 6] == 'p' && s[k - 5] == 'a' && s[p + 5] == 'e' && s[p] == '<';
  }

  lemma IdentifierBeforeBracket(s: string, g: int, k: int)
    requires Attribute(false, s, k) && k < g < |s| && s[g] == '>'
    ensures k + 31 < g
  {
    assert forall i :: k + 4 <= i < k + 31 ==> Alphanumeric(s[i]);
  }

  lemma PlaceLater(s: string, d: nat, p: int, g: int, k: int)
    requires 1 <= d <= |s| && p >= d && Attribute(false, s, k) && Encloses(s, p, g, k)
    ensures k >= d + 13 && TextPlace(s[d..], k - d)
  {
    hide RefAt, Opens;
    BehindOpening(s, p, k);
    AttributeLater(false, s, d, k);
    EnclosedLater(s, d, p, g, k);
    assert Encloses(s[d..], p - d, g - d, k - d);
    NotFirst(Word(s[d - 1]), s[d..], k - d);
  }

  // Away from the beginning it does not matter what precedes a text.
  lemma NotFirst(before: bool, s: string, k: int)
    requires k > 6
    ensures Attribute(before, s, k) == Attribute(false, s, k)
  {
  }

  lemma PlaceEarlier(s: string, d: nat, k: int)
    requires 1 <= d <= |s| && TextPlace(s[d..], k)
    ensures TextPlace(s, k + d)
  {
    hide RefAt, Opens, Word;
    var p, g :| Encloses(s[d..], p, g, k);
    BehindOpening(s[d..], p, k);
    OpensAt(s[d..], p);
    EnclosedLater(s, d, p + d, g + d, k + d);
    NotFirst(Word(s[d - 1]), s[d..], k);
    AttributeLater(false, s, d, k + d);
    assert Encloses(s, p + d, g + d, k + d);
  }

  lemma OpensAt(s: string, p: int)
    requires Opens(s, p)
    ensures p >= 0
  {
  }

  lemma NoTagHere(s: string, g: int, k: int)
    requires !TagAt(s) && s != ""
    ensures !Encloses(s, 0, g, k)
  {
  }

  lemma PlacesStep(s: string)
    requires s != "" && !TagAt(s)
    ensures TextPlaces(s) == {} + Shift(TextPlaces(s[1..]), 1)
  {
    hide Attribute, TagAt, Encloses;
    forall k ensures k in TextPlaces(s) <==> k in Shift(TextPlaces(s[1..]), 1) {
      if k in TextPlaces(s) {
        var p, g :| Encloses(s, p, g, k);
        EnclosedFrom(s, p, g, k);
        if p == 0 { NoTagHere(s, g, k); }
        PlaceLater(s, 1, p, g, k);
        assert k - 1 in TextPlaces(s[1..]);
      }
      if k - 1 in TextPlaces(s[1..]) { PlaceEarlier(s, 1, k - 1); }
    }
  }

  lemma EnclosedFrom(s: string, p: int, g: int, k: int)
    requires Encloses(s, p, g, k)
    ensures 0 <= p < k < g < |s| && s[p] == '<' && s[g] == '>' && Opens(s, p)
    ensures forall i :: p <= i < g ==> s[i] != '>'
  {
  }

  lemma PlaceSomewhere(s: string, n: nat, k: int)
    requires TagAt(s) && n == Find(s, '>') + 1 && TextPlace(s, k)
    ensures n <= |s| && (Attribute(false, s[..n], k) || (k >= n && TextPlace(s[n..], k - n)))
  {
    hide Attribute, Encloses, Opens;
    var p, g :| Encloses(s, p, g, k);
    EnclosedFrom(s, p, g, k);
    if p < n {
      assert s[n - 1] == '>' && g == n - 1;
      IdentifierBeforeBracket(s, g, k);
      AttributeIn(s, n, k);
    } else {
      PlaceLater(s, n, p, g, k);
    }
  }

  lemma PlaceInFirst(s: string, n: nat, k: int)
    requires TagAt(s) && n == Find(s, '>') + 1 && Attribute(false, s[..n], k)
    ensures TextPlace(s, k) && 0 <= k < n
  {
    hide Attribute, Encloses, Opens, TagAt;
    FirstEnds(s);
    AttributeBounds(false, s[..n], k);
    AttributeIn(s, n, k);
    FirstTag(s, k);
  }

  lemma FirstEnds(s: string)
    requires TagAt(s)
    ensures Find(s, '>') < |s|
  {
  }

  lemma PlaceBounds(s: string, k: int)
    ensures TextPlace(s, k) ==> 0 <= k < |s|
  {
  }

  lemma InShift(places: set<int>, d: int, k: int)
    ensures k in Shift(places, d) <==> k - d in places
  {
    if k - d in places { assert k - d + d in Shift(places, d); }
  }

  lemma InTextPlaces(s: string, k: int)
    ensures k in TextPlaces(s) <==> TextPlace(s, k)
  {
    hide TextPlace;
    PlaceBounds(s, k);
  }

  lemma InAttributes(before: bool, s: string, k: int)
    ensures k in Attributes(before, s) <==> Attribute(before, s, k)
  {
    hide Attribute;
    AttributeBounds(before, s, k);
  }

  // A tag at the beginning ends at the first closing bracket; its places are its attributes.
  lemma PlacesSplit(s: string, n: nat)
    requires TagAt(s) && n == Find(s, '>') + 1
    ensures n <= |s| && TextPlaces(s) == Attributes(false, s[..n]) + Shift(TextPlaces(s[n..]), n)
  {
    hide Attribute, TextPlace, TagAt, TextPlaces, Attributes, Shift, Find;
    FirstEnds(s);
    var head, rest := s[..n], s[n..];
    forall k ensures k in TextPlaces(s) <==> k in Attributes(false, head) + Shift(TextPlaces(rest), n) {
      InTextPlaces(s, k);
      InAttributes(false, head, k);
      InShift(TextPlaces(rest), n, k);
      InTextPlaces(rest, k - n);
      if TextPlace(s, k) { PlaceSomewhere(s, n, k); }
      if Attribute(false, head, k) { PlaceInFirst(s, n, k); }
      if TextPlace(rest, k - n) { PlaceEarlier(s, n, k - n); }
    }
  }

  lemma FirstTag(s: string, k: int)
    requires TagAt(s) && 0 < k < Find(s, '>')
    ensures Encloses(s, 0, Find(s, '>'), k)
  {
  }

  lemma AttributeIn(s: string, n: int, k: int)
    requires 0 <= n <= |s| && k + 31 < n
    ensures Attribute(false, s, k) <==> Attribute(false, s[..n], k)
  {
    if 0 <= k {
      if RefAt(s, k) { assert forall i :: k + 4 <= i < k + 31 ==> s[..n][i] == s[i]; }
      if RefAt(s[..n], k) { assert forall i :: k + 4 <= i < k + 31 ==> s[i] == s[..n][i]; }
    }
  }

  lemma TagFirst(s: string, n: nat, f: Renaming)
    requires KeepsShape(f) && TagAt(s) && n == Find(s, '>') + 1 && n <= |s|
    requires Placed(s[n..], Render(TextPieces(s[n..]), f), f, TextPlaces(s[n..]))
    ensures Placed(s, Render(TextPieces(s), f), f, TextPlaces(s))
  {
    hide Placed, KeepsShape, TagAt, Attributes, Shift, TextPlaces, Find, Render, TagPieces;
    PlacesSplit(s, n);
    TagRenamed(false, s[..n], f);
    PlacedAppend(s[..n], Render(TagPieces(false, s[..n]), f), Attributes(false, s[..n]), s[n..], Render(TextPieces(s[n..]), f), TextPlaces(s[n..]), f);
    assert s[..n] + s[n..] == s;
    RenderAppend(TagPieces(false, s[..n]), TextPieces(s[n..]), f);
  }

  lemma CharFirst(s: string, f: Renaming)
    requires s != "" && !TagAt(s)
    requires Placed(s[1..], Render(TextPieces(s[1..]), f), f, TextPlaces(s[1..]))
    ensures Placed(s, Render(TextPieces(s), f), f, TextPlaces(s))
  {
    hide Placed, TagAt, Shift, TextPlaces, Render;
    PlacesStep(s);
    PlacedNowhere(s[..1], f);
    PlacedAppend(s[..1], s[..1], {}, s[1..], Render(TextPieces(s[1..]), f), TextPlaces(s[1..]), f);
    assert s[..1] + s[1..] == s && s[..1] == [s[0]];
    HeadRendered(Lit(s[0]), TextPieces(s[1..]), f);
  }

  lemma NothingRenamed(f: Renaming)
    ensures Placed("", Render(TextPieces(""), f), f, TextPlaces(""))
  {
    PlacedNowhere("", f);
    assert TextPlaces("") == {};
  }

  // In a text, the identifiers of page attributes in Shape tags are renamed, and nothing else.
  lemma {:induction false} TextRenamed(s: string, f: Renaming)
    requires KeepsShape(f)
    ensures Placed(s, Render(TextPieces(s), f), f, TextPlaces(s))
    decreases |s|
  {
    hide Placed, KeepsShape, TagAt, TextPlaces, Render, TextPieces, Find;
    if s == "" {
      NothingRenamed(f);
    } else if TagAt(s) {
      FirstEnds(s);
      TextRenamed(s[Find(s, '>') + 1..], f);
      TagFirst(s, Find(s, '>') + 1, f);
    } else {
      TextRenamed(s[1..], f);
      CharFirst(s, f);
    }
  }

  // ---------------------------------------------------------------- prose

  // Inline code from the backtick at a, which is behind an even number of them, to the next one, at b.
  predicate CodeSpan(s: string, a: int, b: int) {
    && 0 <= a < b < |s| && s[a] == '`' && s[b] == '`'
    && Ticks(s[..a]) % 2 == 0 && '`' !in s[a + 1..b]
  }

  ghost predicate InCode(s: string, i: int) {
    exists a, b :: CodeSpan(s, a, b) && a <= i <= b
  }

  // No inline code from p to g.
  ghost predicate Clear(s: string, p: int, g: int) {
    forall i :: p <= i <= g ==> !InCode(s, i)
  }

  // A page attribute's identifier starts at k, in a Shape tag outside inline code.
  ghost predicate ProsePlace(s: string, k: int) {
    Attribute(false, s, k) && exists p, g :: Encloses(s, p, g, k) && Clear(s, p, g)
  }

  ghost function ProsePlaces(s: string): set<int> {
    set k | 0 <= k < |s| && ProsePlace(s, k)
  }

  lemma InProsePlaces(s: string, k: int)
    ensures k in ProsePlaces(s) <==> ProsePlace(s, k)
  {
    hide Attribute, Encloses, Clear;
    AttributeBounds(false, s, k);
  }

  lemma FirstCodeSpan(s: string)
    requires SpanOf(s).1 < |s|
    ensures CodeSpan(s, SpanOf(s).0, SpanOf(s).1)
  {
    hide Ticks;
    var (x, y) := SpanOf(s);
    FirstSpanClear(s);
    NoTicks(s[..x]);
  }

  lemma FirstSpanClear(s: string)
    requires SpanOf(s).1 < |s|
    ensures '`' !in s[..SpanOf(s).0] && '`' !in s[SpanOf(s).0 + 1..SpanOf(s).1]
  {
    var (x, y) := SpanOf(s);
    assert forall i :: x < i < y ==> s[i] == s[x + 1..][i - x - 1];
  }

  lemma LaterCodeSpan(s: string, a: int, b: int)
    requires CodeSpan(s, a, b)
    ensures SpanOf(s).1 < |s|
    ensures (a == SpanOf(s).0 && b == SpanOf(s).1) || (a > SpanOf(s).1 && CodeSpan(s[SpanOf(s).1 + 1..], a - SpanOf(s).1 - 1, b - SpanOf(s).1 - 1))
  {
    hide Ticks, SpanOf;
    FirstSpan(s, a, b);
    var (x, y) := SpanOf(s);
    if x != a {
      LaterSpan(s, x, y, a, b);
      assert s[y + 1..][a - y..b - y - 1] == s[a + 1..b];
    }
  }

  lemma EarlierCodeSpan(s: string, a: int, b: int)
    requires SpanOf(s).1 < |s| && CodeSpan(s[SpanOf(s).1 + 1..], a, b)
    ensures CodeSpan(s, a + SpanOf(s).1 + 1, b + SpanOf(s).1 + 1)
  {
    hide Ticks, SpanOf;
    var (x, y) := SpanOf(s);
    FirstSpanClear(s);
    var rest := s[y + 1..];
    TwoTicks(s, x, y);
    TicksAppend(s[..y + 1], rest[..a]);
    assert s[..a + y + 1] == s[..y + 1] + rest[..a];
    assert s[a + y + 2..b + y + 1] == rest[a + 1..b];
  }

  lemma TwoTicks(s: string, x: int, y: int)
    requires 0 <= x < y < |s| && s[x] == '`' && s[y] == '`' && '`' !in s[..x] && '`' !in s[x + 1..y]
    ensures Ticks(s[..y + 1]) == 2
  {
    assert s[..y + 1] == s[..x] + [s[x]] + s[x + 1..y] + [s[y]];
    TicksAppend(s[..x] + [s[x]] + s[x + 1..y], [s[y]]);
    TicksAppend(s[..x] + [s[x]], s[x + 1..y]);
    TicksAppend(s[..x], [s[x]]);
    NoTicks(s[..x]);
    NoTicks(s[x + 1..y]);
    assert [s[x]][1..] == "" && [s[y]][1..] == "";
  }

  // What is in code: the first span, and what is in code behind it.
  lemma CodeSplit(s: string, i: int)
    requires SpanOf(s).1 < |s|
    ensures InCode(s, i) <==> SpanOf(s).0 <= i <= SpanOf(s).1 || InCode(s[SpanOf(s).1 + 1..], i - SpanOf(s).1 - 1)
  {
    hide CodeSpan, SpanOf;
    var (x, y) := SpanOf(s);
    FirstCodeSpan(s);
    if InCode(s, i) {
      var a, b :| CodeSpan(s, a, b) && a <= i <= b;
      LaterCodeSpan(s, a, b);
    }
    if InCode(s[y + 1..], i - y - 1) {
      var a, b :| CodeSpan(s[y + 1..], a, b) && a <= i - y - 1 <= b;
      EarlierCodeSpan(s, a, b);
    }
  }

  lemma CodeFrom(s: string, i: int)
    ensures InCode(s, i) ==> 0 <= i < |s|
  {
    hide Ticks;
  }

  lemma NoCode(s: string, i: int)
    requires SpanOf(s).1 == |s|
    ensures !InCode(s, i)
  {
    hide CodeSpan, SpanOf;
    if InCode(s, i) {
      var a, b :| CodeSpan(s, a, b) && a <= i <= b;
      LaterCodeSpan(s, a, b);
    }
  }

  lemma NoSpan(s: string)
    requires SpanOf(s).1 == |s|
    ensures ProsePlaces(s) == TextPlaces(s)
  {
    hide SpanOf, Attribute, Encloses, InCode, ProsePlaces, TextPlaces;
    forall i ensures !InCode(s, i) { NoCode(s, i); }
    forall k ensures k in ProsePlaces(s) <==> k in TextPlaces(s) {
      InProsePlaces(s, k);
      InTextPlaces(s, k);
    }
  }

  lemma EnclosedIn(s: string, n: int, p: int, g: int, k: int)
    requires 0 <= n <= |s| && g < n
    ensures Encloses(s, p, g, k) <==> Encloses(s[..n], p, g, k)
  {
    hide Word;
    if Encloses(s[..n], p, g, k) {
      forall i | p <= i < g ensures s[i] != '>' { assert s[..n][i] != '>'; }
    }
  }

  lemma ClearInFirst(s: string, p: int, g: int)
    requires SpanOf(s).1 < |s| && g < SpanOf(s).0
    ensures Clear(s, p, g)
  {
    hide SpanOf, InCode;
    forall i | p <= i <= g ensures !InCode(s, i) {
      CodeSplit(s, i);
      CodeFrom(s[SpanOf(s).1 + 1..], i - SpanOf(s).1 - 1);
    }
  }

  lemma ClearLater(s: string, p: int, g: int)
    requires SpanOf(s).1 < |s| && p > SpanOf(s).1
    ensures Clear(s, p, g) <==> Clear(s[SpanOf(s).1 + 1..], p - SpanOf(s).1 - 1, g - SpanOf(s).1 - 1)
  {
    hide SpanOf, InCode;
    var d := SpanOf(s).1 + 1;
    forall i | p <= i ensures InCode(s, i) <==> InCode(s[d..], i - d) { CodeSplit(s, i); }
    if Clear(s, p, g) {
      forall i | p - d <= i <= g - d ensures !InCode(s[d..], i) { assert !InCode(s, i + d); }
    }
  }

  // A tag outside code is before the first span or behind it.
  lemma ClearApart(s: string, p: int, g: int)
    requires SpanOf(s).1 < |s| && p < g && Clear(s, p, g)
    ensures g < SpanOf(s).0 || p > SpanOf(s).1
  {
    hide SpanOf, InCode;
    CodeSplit(s, p);
    CodeSplit(s, SpanOf(s).0);
    assert SpanOf(s).0 <= SpanOf(s).1;
  }

  lemma FirstText(s: string, k: int)
    requires SpanOf(s).1 < |s| && TextPlace(s[..SpanOf(s).0], k)
    ensures ProsePlace(s, k)
  {
    hide SpanOf, Attribute, Encloses, Clear;
    var x := SpanOf(s).0;
    var p, g :| Encloses(s[..x], p, g, k);
    EnclosedFrom(s[..x], p, g, k);
    IdentifierBeforeBracket(s[..x], g, k);
    AttributeIn(s, x, k);
    EnclosedIn(s, x, p, g, k);
    ClearInFirst(s, p, g);
  }

  lemma LaterText(s: string, k: int)
    requires SpanOf(s).1 < |s| && ProsePlace(s[SpanOf(s).1 + 1..], k)
    ensures ProsePlace(s, k + SpanOf(s).1 + 1)
  {
    hide SpanOf, Attribute, Encloses, Clear, Opens;
    var d := SpanOf(s).1 + 1;
    var (p, g) := Tag(s[d..], k);
    EnclosedFrom(s[d..], p, g, k);
    BehindOpening(s[d..], p, k);
    EnclosedLater(s, d, p + d, g + d, k + d);
    NotFirst(Word(s[d - 1]), s[d..], k);
    AttributeLater(false, s, d, k + d);
    ClearLater(s, p + d, g + d);
  }

  // The tag around the attribute at k.
  ghost function Tag(s: string, k: int): (tag: (int, int))
    requires ProsePlace(s, k)
    ensures Encloses(s, tag.0, tag.1, k) && Clear(s, tag.0, tag.1)
  {
    var p, g :| Encloses(s, p, g, k) && Clear(s, p, g);
    (p, g)
  }

  lemma SomeText(s: string, k: int)
    requires SpanOf(s).1 < |s| && ProsePlace(s, k)
    ensures TextPlace(s[..SpanOf(s).0], k) || ProsePlace(s[SpanOf(s).1 + 1..], k - SpanOf(s).1 - 1)
  {
    hide SpanOf, Attribute, Encloses, Clear, Opens, Word;
    var x, d := SpanOf(s).0, SpanOf(s).1 + 1;
    var (p, g) := Tag(s, k);
    EnclosedFrom(s, p, g, k);
    ClearApart(s, p, g);
    if g < x {
      IdentifierBeforeBracket(s, g, k);
      AttributeIn(s, x, k);
      EnclosedIn(s, x, p, g, k);
    } else {
      BehindOpening(s, p, k);
      AttributeLater(false, s, d, k);
      NotFirst(Word(s[d - 1]), s[d..], k - d);
      EnclosedLater(s, d, p, g, k);
      ClearLater(s, p, g);
    }
  }

  lemma ProseSplit(s: string, x: nat, y: nat)
    requires SpanOf(s) == (x, y) && y < |s|
    ensures ProsePlaces(s) == TextPlaces(s[..x]) + Shift({}, x) + Shift(ProsePlaces(s[y + 1..]), y + 1)
  {
    hide SpanOf, ProsePlace, TextPlace, ProsePlaces, TextPlaces, Shift;
    forall k ensures k in ProsePlaces(s) <==> k in TextPlaces(s[..x]) + Shift({}, x) + Shift(ProsePlaces(s[y + 1..]), y + 1) {
      InProsePlaces(s, k);
      InTextPlaces(s[..x], k);
      InShift({}, x, k);
      InShift(ProsePlaces(s[y + 1..]), y + 1, k);
      InProsePlaces(s[y + 1..], k - y - 1);
      if ProsePlace(s, k) { SomeText(s, k); }
      if TextPlace(s[..x], k) { FirstText(s, k); }
      if ProsePlace(s[y + 1..], k - y - 1) { LaterText(s, k - y - 1); }
    }
  }

  lemma SpanFirst(s: string, x: nat, y: nat, f: Renaming)
    requires KeepsShape(f) && SpanOf(s) == (x, y) && y < |s|
    requires Placed(s[y + 1..], Render(ProsePieces(s[y + 1..]), f), f, ProsePlaces(s[y + 1..]))
    ensures Placed(s, Render(ProsePieces(s), f), f, ProsePlaces(s))
  {
    hide SpanOf, Placed, KeepsShape, ProsePlaces, TextPlaces, Shift, Render, TextPieces, ProsePieces;
    var head, code, rest := s[..x], s[x..y + 1], s[y + 1..];
    TextRenamed(head, f);
    PlacedNowhere(code, f);
    PlacedAppend(head, Render(TextPieces(head), f), TextPlaces(head), code, code, {}, f);
    PlacedAppend(head + code, Render(TextPieces(head), f) + code, TextPlaces(head) + Shift({}, x), rest, Render(ProsePieces(rest), f), ProsePlaces(rest), f);
    assert head + code + rest == s;
    SpanPieces(s);
    SpanRender(s, x, y, f);
    ProseSplit(s, x, y);
  }

  // In prose, the identifiers of page attributes in Shape tags outside inline code are renamed, and
  // nothing else.
  lemma {:induction false} ProseRenamed(s: string, f: Renaming)
    requires KeepsShape(f)
    ensures Placed(s, Render(ProsePieces(s), f), f, ProsePlaces(s))
    decreases |s|
  {
    hide SpanOf, Placed, KeepsShape, ProsePlaces, TextPlaces, Render, TextPieces;
    var (x, y) := SpanOf(s);
    if y == |s| {
      TextRenamed(s, f);
      NoSpan(s);
    } else {
      ProseRenamed(s[y + 1..], f);
      SpanFirst(s, x, y, f);
    }
  }
}

/** What a valid note is, by position: which of its text is looked at, which components it may name, and
    which page references are checked. */
module NoteChecked {
  import opened ResourceId
  import opened Strings
  import opened NoteRemap
  import opened NoteCheck
  import P = NotePlaces
  import N = NoteRenamed

  // ---------------------------------------------------------------- components

  // A component is named from p + 1 up to e.
  predicate Component(s: string, p: int, e: int) {
    && 0 <= p && p + 1 < e <= |s| && s[p] == '<' && 'A' <= s[p + 1] <= 'Z'
    && (forall i :: p < i < e ==> Alphanumeric(s[i])) && (e < |s| ==> !Word(s[e]))
  }

  predicate Allowed(s: string, p: int, e: int) {
    Component(s, p, e) ==> s[p + 1..e] == "Shape" || s[p + 1..e] == "Embed"
  }

  lemma ComponentExactly(s: string, p: nat)
    requires p < |s|
    ensures ComponentAllowed(s, p) <==> forall e :: Allowed(s, p, e)
  {
    if p + 1 < |s| && s[p] == '<' && 'A' <= s[p + 1] <= 'Z' {
      var n := NameEnd(s, p + 1);
      assert n > p + 1;
      if !(n < |s| && s[n] == '_') { assert Component(s, p, n) && (ComponentAllowed(s, p) <==> Allowed(s, p, n)); }
      forall e | Component(s, p, e) ensures e == n && !(n < |s| && s[n] == '_') { }
    }
  }

  // ---------------------------------------------------------------- checked references

  // No closing bracket from a up to b.
  predicate Unclosed(s: string, a: int, b: int) {
    forall i :: a <= i < b && 0 <= i < |s| ==> s[i] != '>'
  }

  // A page attribute's value stands from v up to the quote at q, in the Shape tag at p.
  predicate PageValue(s: string, p: int, v: int, q: int) {
    && P.Opens(s, p) && p + 12 <= v < q < |s| && Unclosed(s, p + 6, v - 6)
    && !Word(s[v - 7]) && s[v - 6] == 'p' && s[v - 5] == 'a' && s[v - 4] == 'g' && s[v - 3] == 'e' && s[v - 2] == '=' && s[v - 1] == '"'
    && s[q] == '"' && forall i :: v <= i < q ==> s[i] != '"'
  }

  // The last one of the tag is the one that is checked.
  ghost predicate LastValue(s: string, p: int, v: int, q: int) {
    PageValue(s, p, v, q) && forall w, r :: PageValue(s, p, w, r) ==> w <= v
  }

  // The tag at p is looked at: it has a value, and no earlier one that is looked at reaches it.
  ghost predicate LookedAt(s: string, p: int)
    decreases p
  {
    && (exists v, q :: LastValue(s, p, v, q))
    && forall o :: 0 <= o < p && LookedAt(s, o) ==> Short(s, o, p)
  }

  ghost predicate Short(s: string, o: int, p: int) {
    forall v, q :: LastValue(s, o, v, q) ==> q < p
  }

  lemma OneQuote(s: string, v: nat, q: int)
    requires v < q < |s| && s[q] == '"' && forall i :: v <= i < q ==> s[i] != '"'
    ensures QuoteFrom(s, v) == q
  {
    assert s[v..][q - v] == '"';
    forall i | 0 <= i < q - v ensures s[v..][i] != '"' { assert s[v..][i] == s[v + i]; }
  }

  lemma QuoteIs(s: string, v: nat)
    requires v <= |s| && QuoteFrom(s, v) < |s|
    ensures s[QuoteFrom(s, v)] == '"' && forall i :: v <= i < QuoteFrom(s, v) ==> s[i] != '"'
  {
    forall i | v <= i < QuoteFrom(s, v) ensures s[i] != '"' { assert s[v..][i - v] != '"'; }
  }

  // The attribute at j, as the tag at p has it.
  lemma PageIsValue(s: string, p: nat, j: int, q: int)
    requires P.Opens(s, p) && p + 6 <= j
    ensures PageValue(s, p, j + 6, q) <==> PageAt(s, j) && q == QuoteFrom(s, j + 6) && Unclosed(s, p + 6, j)
  {
    hide QuoteFrom;
    if PageAt(s, j) {
      QuoteIs(s, j + 6);
      assert QuoteFrom(s, j + 6) > j + 6;
    }
    if PageValue(s, p, j + 6, q) { OneQuote(s, j + 6, q); }
  }

  lemma {:induction false} LastPageIs(s: string, j: nat)
    ensures LastPage(s, j) >= 0 ==> Unclosed(s, j, LastPage(s, j))
    ensures forall k: nat :: k >= j && k > LastPage(s, j) && PageAt(s, k) ==> !Unclosed(s, j, k)
    decreases |s| - j
  {
    hide PageAt;
    if j < |s| {
      LastPageIs(s, j + 1);
      forall k: nat | k >= j && k > LastPage(s, j) && PageAt(s, k) ensures !Unclosed(s, j, k) {
        if k > j && s[j] != '>' { assert !Unclosed(s, j + 1, k); }
      }
    } else {
      forall k: nat | k >= j ensures !PageAt(s, k) { PageInside(s, k); }
    }
  }

  lemma PageInside(s: string, k: nat)
    ensures PageAt(s, k) ==> k + 6 < |s|
  {
  }

  lemma ShapeOpens(s: string, p: nat)
    ensures P.Opens(s, p) ==> ShapeAt(s, p)
    ensures ShapeAt(s, p) && p + 6 < |s| ==> P.Opens(s, p)
  {
  }

  // What is checked of the tag at p.
  lemma CheckedExactly(s: string, p: nat)
    ensures var j := Checked(s, p);
      if j >= 0 then LastValue(s, p, j + 6, QuoteFrom(s, j + 6)) else forall v, q :: !LastValue(s, p, v, q)
  {
    hide LastPage, PageAt, PageValue, ShapeAt, P.Opens, QuoteFrom;
    var j := Checked(s, p);
    ShapeOpens(s, p);
    if P.Opens(s, p) {
      LastPageIs(s, p + 6);
      if j >= 0 {
        PageInside(s, j);
        PageIsValue(s, p, j, QuoteFrom(s, j + 6));
      }
      forall w, r | PageValue(s, p, w, r) ensures w <= j + 6 && j >= 0 {
        ValueBehind(s, p, w, r);
        PageIsValue(s, p, w - 6, r);
      }
    } else {
      if j >= 0 { PageInside(s, j); }
      forall v, q ensures !PageValue(s, p, v, q) { NoTag(s, p, v, q); }
    }
  }

  lemma ValueBehind(s: string, p: int, v: int, q: int)
    requires PageValue(s, p, v, q)
    ensures p + 12 <= v < q < |s| && 0 <= p
  {
  }

  lemma NoTag(s: string, p: int, v: int, q: int)
    requires !P.Opens(s, p)
    ensures !PageValue(s, p, v, q)
  {
  }

  lemma OneValue(s: string, p: int, v: int, q: int, v': int, q': int)
    requires LastValue(s, p, v, q) && LastValue(s, p, v', q')
    ensures v == v' && q == q'
  {
    hide PageValue;
    ValueBehind(s, p, v, q);
    ValueBehind(s, p, v', q');
    QuoteOf(s, p, v, q);
    QuoteOf(s, p, v', q');
  }

  lemma QuoteOf(s: string, p: int, v: int, q: int)
    requires PageValue(s, p, v, q)
    ensures v >= 0 && v < |s| && q == QuoteFrom(s, v)
  {
    OneQuote(s, v, q);
  }

  lemma LastBehind(s: string, p: int, v: int, q: int)
    requires LastValue(s, p, v, q)
    ensures 0 <= p && p + 12 <= v < q < |s|
  {
    hide PageValue;
    ValueBehind(s, p, v, q);
  }

  // Every tag before `from` that is looked at ends before it.
  ghost predicate Past(s: string, from: int) {
    forall o :: 0 <= o < from && LookedAt(s, o) ==> Short(s, o, from)
  }

  ghost predicate AllValid(s: string, from: int) {
    forall p, v, q :: p >= from && LookedAt(s, p) && LastValue(s, p, v, q) ==> 0 <= v < q < |s| && PageId(s[v..q])
  }

  lemma {:induction false} CapturesFrom(s: string, from: nat)
    requires Past(s, from)
    ensures AllPageIds(Captures(s, from)) <==> AllValid(s, from)
    decreases |s| - from
  {
    hide LookedAt, LastValue, PageId, Checked, AllPageIds, Short, AllValid, QuoteFrom;
    CheckedExactly(s, from);
    var j := Checked(s, from);
    if from >= |s| {
      BeyondEnd(s, from);
      NoIds();
    } else if j < 0 {
      NothingAt(s, from);
      CapturesFrom(s, from + 1);
    } else {
      var q := QuoteFrom(s, j + 6);
      SomethingAt(s, from, j + 6, q);
      CapturesFrom(s, q + 1);
      AllPageIdsCons(s[j + 6..q], Captures(s, q + 1));
    }
  }

  lemma NoIds()
    ensures AllPageIds([])
  {
  }

  lemma BeyondEnd(s: string, from: int)
    requires from >= |s|
    ensures AllValid(s, from)
  {
    hide LookedAt, LastValue, PageId;
    forall p, v, q | p >= from && LastValue(s, p, v, q) ensures false { LastBehind(s, p, v, q); }
  }

  lemma NothingAt(s: string, from: nat)
    requires Past(s, from) && forall v, q :: !LastValue(s, from, v, q)
    ensures Past(s, from + 1) && (AllValid(s, from) <==> AllValid(s, from + 1))
  {
    hide LastValue, PageId;
    assert !LookedAt(s, from);
    forall o | 0 <= o < from + 1 && LookedAt(s, o) ensures Short(s, o, from + 1) { assert Short(s, o, from); }
  }

  lemma SomethingAt(s: string, from: nat, v: int, q: int)
    requires Past(s, from) && LastValue(s, from, v, q)
    ensures from < v < q < |s| && Past(s, q + 1)
    ensures AllValid(s, from) <==> PageId(s[v..q]) && AllValid(s, q + 1)
  {
    hide LastValue, PageId, LookedAt, Short;
    LastBehind(s, from, v, q);
    LookedAtHere(s, from, v, q);
    ShortExactly(s, from, v, q);
    forall o | from < o <= q ensures !LookedAt(s, o) { Reached(s, from, o); }
    forall o | 0 <= o < q + 1 && LookedAt(s, o) ensures Short(s, o, q + 1) {
      if o < from { ShortLonger(s, o, from, q + 1); }
    }
    forall v', q' | LastValue(s, from, v', q') ensures v' == v && q' == q { OneValue(s, from, v, q, v', q'); }
  }

  lemma LookedAtHere(s: string, from: nat, v: int, q: int)
    requires Past(s, from) && LastValue(s, from, v, q)
    ensures LookedAt(s, from)
  {
    hide LastValue, Short;
  }

  lemma ShortExactly(s: string, p: int, v: int, q: int)
    requires LastValue(s, p, v, q)
    ensures forall e :: Short(s, p, e) <==> q < e
  {
    hide LastValue;
    forall v', q' | LastValue(s, p, v', q') ensures v' == v && q' == q { OneValue(s, p, v, q, v', q'); }
  }

  lemma ShortLonger(s: string, o: int, p: int, e: int)
    requires Short(s, o, p) && p <= e
    ensures Short(s, o, e)
  {
    hide LastValue;
  }

  lemma Reached(s: string, p: int, o: int)
    requires 0 <= p < o && LookedAt(s, p) && !Short(s, p, o)
    ensures !LookedAt(s, o)
  {
    hide LastValue, Short;
  }

  // ---------------------------------------------------------------- text outside inline code

  // The characters from i on that are in no inline code.
  ghost function Outside(s: string, i: nat): string
    decreases |s| - i
  {
    if i >= |s| then "" else (if P.InCode(s, i) then "" else [s[i]]) + Outside(s, i + 1)
  }

  lemma OutsideStep(s: string, i: nat)
    requires i < |s|
    ensures Outside(s, i) == (if P.InCode(s, i) then "" else [s[i]]) + Outside(s, i + 1)
  {
    hide P.InCode;
  }

  lemma {:induction false} OutsideKept(s: string, i: nat, j: nat)
    requires i <= j <= |s| && forall k :: i <= k < j ==> !P.InCode(s, k)
    ensures Outside(s, i) == s[i..j] + Outside(s, j)
    decreases j - i
  {
    hide P.InCode, Outside;
    if i < j {
      OutsideKept(s, i + 1, j);
      OutsideStep(s, i);
      assert s[i..j] == [s[i]] + s[i + 1..j];
      assert [s[i]] + (s[i + 1..j] + Outside(s, j)) == [s[i]] + s[i + 1..j] + Outside(s, j);
    } else {
      assert s[i..j] == "";
    }
  }

  lemma {:induction false} OutsideDropped(s: string, i: nat, j: nat)
    requires i <= j <= |s| && forall k :: i <= k < j ==> P.InCode(s, k)
    ensures Outside(s, i) == Outside(s, j)
    decreases j - i
  {
    hide P.InCode, Outside;
    if i < j {
      OutsideDropped(s, i + 1, j);
      OutsideStep(s, i);
    }
  }

  lemma {:induction false} OutsideLater(s: string, d: nat, i: nat)
    requires d <= |s| && forall k :: d <= k < |s| ==> (P.InCode(s, k) <==> P.InCode(s[d..], k - d))
    ensures Outside(s, d + i) == Outside(s[d..], i)
    decreases |s| - i
  {
    hide P.InCode, Outside;
    if d + i < |s| {
      OutsideLater(s, d, i + 1);
      OutsideStep(s, d + i);
      OutsideStep(s[d..], i);
      assert s[d..][i] == s[d + i] && d + (i + 1) == d + i + 1;
      assert P.InCode(s, d + i) <==> P.InCode(s[d..], d + i - d);
    } else {
      NothingMore(s, d + i);
      NothingMore(s[d..], i);
    }
  }

  lemma NothingMore(s: string, i: nat)
    requires i >= |s|
    ensures Outside(s, i) == ""
  {
  }

  lemma NoCodeAtAll(s: string)
    requires SpanOf(s).1 == |s|
    ensures Outside(s, 0) == s
  {
    hide P.InCode, SpanOf, Outside;
    forall k | 0 <= k < |s| ensures !P.InCode(s, k) { P.NoCode(s, k); }
    OutsideKept(s, 0, |s|);
    NothingMore(s, |s|);
    assert s[0..|s|] == s;
  }

  lemma OutsideFirst(s: string, x: nat, y: nat)
    requires SpanOf(s) == (x, y) && y < |s|
    ensures x <= y && Outside(s, 0) == s[..x] + Outside(s[y + 1..], 0)
  {
    hide P.InCode, SpanOf, Outside;
    P.FirstCodeSpan(s);
    forall k | 0 <= k < |s|
      ensures P.InCode(s, k) <==> x <= k <= y || (k > y && P.InCode(s[y + 1..], k - (y + 1)))
    {
      P.CodeSplit(s, k);
      P.CodeFrom(s[y + 1..], k - y - 1);
    }
    OutsideKept(s, 0, x);
    OutsideDropped(s, x, y + 1);
    OutsideLater(s, y + 1, 0);
    assert s[0..x] == s[..x];
  }

  lemma {:induction false} WithoutCodeExactly(s: string)
    ensures WithoutCode(s) == Outside(s, 0)
    decreases |s|
  {
    hide P.InCode, SpanOf, Outside;
    var (x, y) := SpanOf(s);
    if y == |s| {
      NoCodeAtAll(s);
    } else {
      OutsideFirst(s, x, y);
      WithoutCodeExactly(s[y + 1..]);
    }
  }

  // ---------------------------------------------------------------- lines outside fences

  // Text starts at line a: at the top, or behind a fence that text runs into.
  predicate TextFrom(lines: seq<string>, a: int)
    decreases a
  {
    if a <= 0 then a == 0
    else a <= |lines| && exists p, m :: 0 <= p <= m < a - 1 && TextFrom(lines, p) && N.Plain(lines, p, m) && N.FenceFrom(lines, m, a - 1)
  }

  // Line i is text: no fence opens or closes between where text starts and it, nor at it.
  ghost predicate IsText(lines: seq<string>, i: int) {
    exists a :: TextThrough(lines, a, i)
  }

  predicate TextThrough(lines: seq<string>, a: int, i: int) {
    a <= i && TextSince(lines, a, i + 1)
  }

  predicate TextSince(lines: seq<string>, a: int, i: int) {
    0 <= a <= i <= |lines| && TextFrom(lines, a) && N.Plain(lines, a, i)
  }

  ghost function TextLines(lines: seq<string>, i: nat): string
    decreases |lines| - i
  {
    if i >= |lines| then "" else (if IsText(lines, i) then lines[i] else "") + TextLines(lines, i + 1)
  }

  // The fence that is open before line i.
  function OpenAt(lines: seq<string>, i: nat): string {
    if i == 0 || i > |lines| then ""
    else
      var fence := OpenAt(lines, i - 1);
      if !Marker(lines[i - 1]) then fence
      else if fence == "" then Fence(lines[i - 1])
      else if fence == Fence(lines[i - 1]) then "" else fence
  }

  ghost predicate Fenced(lines: seq<string>, m: int, i: int) {
    && 0 <= m < i <= |lines| && Marker(lines[m]) && (exists p :: TextSince(lines, p, m))
    && forall h :: m < h < i ==> !N.Closes(lines[h], lines[m])
  }

  ghost predicate Told(lines: seq<string>, i: nat) {
    if OpenAt(lines, i) == "" then exists a :: TextSince(lines, a, i)
    else exists m :: Fenced(lines, m, i) && OpenAt(lines, i) == Fence(lines[m])
  }

  lemma FenceIsSome(line: string)
    requires Marker(line)
    ensures Fence(line) != ""
  {
    hide Trim;
  }

  lemma {:induction false} ToldAt(lines: seq<string>, i: nat)
    requires i <= |lines|
    ensures Told(lines, i)
    decreases i
  {
    hide Marker, Told, Fence, TextFrom;
    if i == 0 {
      ToldTop(lines);
    } else {
      ToldAt(lines, i - 1);
      if OpenAt(lines, i - 1) == "" { ToldText(lines, i - 1); } else { ToldFenced(lines, i - 1); }
    }
  }

  lemma ToldTop(lines: seq<string>)
    ensures Told(lines, 0)
  {
    hide Marker;
    assert TextSince(lines, 0, 0);
  }

  lemma ToldText(lines: seq<string>, i: nat)
    requires i < |lines| && Told(lines, i) && OpenAt(lines, i) == ""
    ensures Told(lines, i + 1)
  {
    hide Marker, Fence, TextFrom, N.Closes;
    var a :| TextSince(lines, a, i);
    if Marker(lines[i]) {
      FenceIsSome(lines[i]);
      assert Fenced(lines, i, i + 1);
    } else {
      assert TextSince(lines, a, i + 1);
    }
  }

  lemma ToldFenced(lines: seq<string>, i: nat)
    requires i < |lines| && Told(lines, i) && OpenAt(lines, i) != ""
    ensures Told(lines, i + 1)
  {
    hide Marker, Fence, TextFrom;
    var m :| Fenced(lines, m, i) && OpenAt(lines, i) == Fence(lines[m]);
    if N.Closes(lines[i], lines[m]) {
      var p :| TextSince(lines, p, m);
      assert N.FenceFrom(lines, m, i);
      TextAgain(lines, p, m, i);
    } else {
      assert Fenced(lines, m, i + 1);
    }
  }

  lemma TextAgain(lines: seq<string>, p: int, m: int, c: int)
    requires TextSince(lines, p, m) && N.FenceFrom(lines, m, c)
    ensures TextSince(lines, c + 1, c + 1)
  {
    hide Marker, N.Closes, TextFrom;
    TextBehind(lines, p, m, c);
  }

  lemma TextBehind(lines: seq<string>, p: int, m: int, c: int)
    requires TextSince(lines, p, m) && N.FenceFrom(lines, m, c)
    ensures TextFrom(lines, c + 1)
  {
    hide Marker, N.Plain, N.Closes;
    assert 0 <= p <= m < c && TextFrom(lines, p) && N.Plain(lines, p, m) && N.FenceFrom(lines, m, c);
  }

  lemma {:induction false} NothingOpen(lines: seq<string>, a: nat)
    requires TextFrom(lines, a) && a <= |lines|
    ensures OpenAt(lines, a) == ""
    decreases a, 0
  {
    hide Marker, Fence, N.Closes;
    if a > 0 {
      var p, m :| 0 <= p <= m < a - 1 && TextFrom(lines, p) && N.Plain(lines, p, m) && N.FenceFrom(lines, m, a - 1);
      StillNothing(lines, p, m);
      StillOpen(lines, m, a - 1);
      ClosedThere(lines, m, a - 1);
    }
  }

  lemma {:induction false} StillNothing(lines: seq<string>, a: nat, i: nat)
    requires a <= i <= |lines| && TextFrom(lines, a) && N.Plain(lines, a, i)
    ensures OpenAt(lines, i) == ""
    decreases i, 1
  {
    hide Marker, Fence, TextFrom;
    if a == i { NothingOpen(lines, a); } else { StillNothing(lines, a, i - 1); }
  }

  lemma {:induction false} StillOpen(lines: seq<string>, m: nat, i: nat)
    requires m < i <= |lines| && Marker(lines[m]) && OpenAt(lines, m) == "" && forall h :: m < h < i ==> !N.Closes(lines[h], lines[m])
    ensures OpenAt(lines, i) == Fence(lines[m])
    decreases i
  {
    hide Marker, Fence;
    FenceIsSome(lines[m]);
    if i - 1 > m { StillOpen(lines, m, i - 1); }
  }

  lemma ClosedThere(lines: seq<string>, m: nat, c: nat)
    requires N.FenceFrom(lines, m, c) && OpenAt(lines, c) == Fence(lines[m])
    ensures OpenAt(lines, c + 1) == ""
  {
    hide Marker, Fence;
    FenceIsSome(lines[m]);
  }

  lemma TextExactly(lines: seq<string>, i: nat)
    requires i < |lines|
    ensures IsText(lines, i) <==> OpenAt(lines, i) == "" && !Marker(lines[i])
  {
    hide Marker, Fence, TextFrom, OpenAt;
    if IsText(lines, i) {
      var a :| TextThrough(lines, a, i);
      StillNothing(lines, a, i);
    }
    if OpenAt(lines, i) == "" && !Marker(lines[i]) {
      ToldAt(lines, i);
      var a :| TextSince(lines, a, i);
      assert TextThrough(lines, a, i);
    }
  }

  lemma {:induction false} UnfencedExactly(lines: seq<string>, i: nat)
    requires i <= |lines|
    ensures Unfenced(lines[i..], OpenAt(lines, i)) == TextLines(lines, i)
    decreases |lines| - i
  {
    hide Marker, Fence, IsText;
    if i < |lines| {
      TextExactly(lines, i);
      UnfencedExactly(lines, i + 1);
      assert lines[i..][0] == lines[i] && lines[i..][1..] == lines[i + 1..];
      if Marker(lines[i]) { FenceIsSome(lines[i]); }
    }
  }

  // ---------------------------------------------------------------- valid notes

  // What is looked at: the lines outside fences, without their inline code.
  ghost function Visible(body: string): string {
    Outside(TextLines(Lines(body + "\n"), 0), 0)
  }

  lemma VisibleExactly(body: string)
    ensures VisibleProse(body) == Visible(body)
  {
    hide Unfenced, WithoutCode, TextLines, Outside, Lines;
    var lines := Lines(body + "\n");
    UnfencedExactly(lines, 0);
    assert lines[0..] == lines;
    WithoutCodeExactly(TextLines(lines, 0));
  }

  lemma AllComponents(s: string)
    ensures (forall p :: 0 <= p < |s| ==> ComponentAllowed(s, p)) <==> forall p, e :: Allowed(s, p, e)
  {
    hide ComponentAllowed;
    forall p: nat | p < |s| ensures ComponentAllowed(s, p) <==> forall e :: Allowed(s, p, e) { ComponentExactly(s, p); }
    if forall p :: 0 <= p < |s| ==> ComponentAllowed(s, p) {
      forall p, e ensures Allowed(s, p, e) { if 0 <= p < |s| { assert ComponentAllowed(s, p); } }
    }
  }

  // A note is valid exactly if it is short enough, has no null character, names no component but two in
  // the text that is looked at, and the last page of each Shape tag looked at there is an identifier.
  lemma ValidNoteExactly(body: string)
    ensures ValidNote(body) <==>
      && Utf8Length(body) <= 1_048_576
      && (forall i :: 0 <= i < |body| ==> body[i] != '\0')
      && (forall p, e :: Allowed(Visible(body), p, e))
      && AllValid(Visible(body), 0)
  {
    hide VisibleProse, Visible, ComponentAllowed, Allowed, Captures, AllValid;
    VisibleExactly(body);
    AllComponents(Visible(body));
    NothingBefore(Visible(body));
    CapturesFrom(Visible(body), 0);
  }

  lemma NothingBefore(s: string)
    ensures Past(s, 0)
  {
  }
}

/** The check on a note: which components and which page references its prose may use. A renaming of
    page references to valid identifiers keeps it satisfied. */
module NoteCheck {
  import opened Strings
  import opened NoteRemap
  import opened ResourceId

  const MAX_NOTE_BYTES := 0x10_0000

  // ---------------------------------------------------------------- the check

  // Lines outside fences.
  function Unfenced(lines: seq<string>, fence: string): string {
    if lines == [] then ""
    else if Marker(lines[0]) then
      Unfenced(lines[1..], if fence == "" then Fence(lines[0]) else if fence == Fence(lines[0]) then "" else fence)
    else if fence == "" then lines[0] + Unfenced(lines[1..], fence)
    else Unfenced(lines[1..], fence)
  }

  function WithoutCode(s: string): string
    decreases |s|
  {
    var (a, b) := SpanOf(s);
    if b == |s| then s else s[..a] + WithoutCode(s[b + 1..])
  }

  function VisibleProse(body: string): string {
    WithoutCode(Unfenced(Lines(body + "\n"), ""))
  }

  // The end of the letters and digits from p on.
  function NameEnd(s: string, p: nat): (e: nat)
    requires p <= |s|
    ensures p <= e <= |s|
    ensures forall i :: p <= i < e ==> Alphanumeric(s[i])
    ensures e < |s| ==> !Alphanumeric(s[e])
    decreases |s| - p
  {
    if p < |s| && Alphanumeric(s[p]) then NameEnd(s, p + 1) else p
  }

  // Every component is one of two; a name that runs into an underscore is not a component.
  predicate ComponentAllowed(s: string, p: nat) {
    p + 1 < |s| && s[p] == '<' && 'A' <= s[p + 1] <= 'Z' ==>
      var e := NameEnd(s, p + 1);
      (e < |s| && s[e] == '_') || s[p + 1..e] == "Shape" || s[p + 1..e] == "Embed"
  }

  predicate ShapeAt(s: string, p: nat) {
    && p + 6 <= |s|
    && s[p] == '<' && s[p + 1] == 'S' && s[p + 2] == 'h' && s[p + 3] == 'a' && s[p + 4] == 'p' && s[p + 5] == 'e'
    && (p + 6 < |s| ==> !Word(s[p + 6]))
  }

  function QuoteFrom(s: string, p: nat): (q: nat)
    requires p <= |s|
    ensures p <= q <= |s|
  {
    p + Find(s[p..], '"')
  }

  // A page attribute with a value starts at j.
  predicate PageAt(s: string, j: nat) {
    && 1 <= j && j + 6 < |s| && !Word(s[j - 1])
    && s[j] == 'p' && s[j + 1] == 'a' && s[j + 2] == 'g' && s[j + 3] == 'e' && s[j + 4] == '=' && s[j + 5] == '"'
    && s[j + 6] != '"' && QuoteFrom(s, j + 6) < |s|
  }

  // The last page attribute from j on that no closing bracket precedes, or -1.
  function LastPage(s: string, j: nat): (r: int)
    ensures r == -1 || (j <= r && PageAt(s, r))
    decreases |s| - j
  {
    if j >= |s| then -1
    else
      var later := if s[j] == '>' then -1 else LastPage(s, j + 1);
      if later >= 0 then later else if PageAt(s, j) then j else -1
  }

  // The page attribute that is checked of the tag at p, or -1.
  function Checked(s: string, p: nat): (j: int)
    ensures j == -1 || (p + 6 <= j && PageAt(s, j))
  {
    if ShapeAt(s, p) then LastPage(s, p + 6) else -1
  }

  // The values of the page attributes that are checked, from p on.
  function Captures(s: string, p: nat): seq<string>
    decreases |s| - p
  {
    if p >= |s| then []
    else
      var j := Checked(s, p);
      if j < 0 then Captures(s, p + 1)
      else [s[j + 6..QuoteFrom(s, j + 6)]] + Captures(s, QuoteFrom(s, j + 6) + 1)
  }

  predicate PageId(s: string) {
    ResourceId.Valid(s, "pag")
  }

  predicate AllPageIds(captures: seq<string>) {
    forall i :: 0 <= i < |captures| ==> PageId(captures[i])
  }

  predicate ProseAllowed(prose: string) {
    && (forall p :: 0 <= p < |prose| ==> ComponentAllowed(prose, p))
    && AllPageIds(Captures(prose, 0))
  }

  predicate ValidNote(body: string) {
    && Utf8Length(body) <= MAX_NOTE_BYTES
    && (forall i :: 0 <= i < |body| ==> body[i] != '\0')
    && ProseAllowed(VisibleProse(body))
  }

  // ---------------------------------------------------------------- references replaced by identifiers

  ghost predicate IdAt(s: string, k: int) {
    0 <= k && k + 31 <= |s| && PageId(s[k..k + 31])
  }

  lemma IdIsRef(id: string)
    requires PageId(id)
    ensures IsRef(id)
  {
    hide ResourceId.Value;
    var value := id[4..];
    assert id[..4] == "pag_";
    assert id[0] == id[..4][0] && id[1] == id[..4][1] && id[2] == id[..4][2] && id[3] == id[..4][3];
    assert forall i :: 4 <= i < 31 ==> id[i] == value[i - 4];
  }

  // Position i is in a reference of s that became an identifier in t.
  ghost predicate Issued(s: string, t: string, i: int) {
    exists k :: RefAt(s, k) && IdAt(t, k) && k + 4 <= i < k + 31
  }

  // Where s and t differ, s has a reference and t a valid identifier.
  ghost predicate Reissued(s: string, t: string) {
    && |s| == |t|
    && forall i :: 0 <= i < |s| ==> s[i] == t[i] || Issued(s, t, i)
  }

  ghost predicate Issues(f: Renaming) {
    forall id :: IsRef(id) ==> PageId(f(id))
  }

  lemma IssuesKeepsShape(f: Renaming)
    requires Issues(f)
    ensures KeepsShape(f)
  {
    hide PageId;
    forall id | IsRef(id) ensures IsRef(f(id)) { IdIsRef(f(id)); }
  }

  lemma IdAtRef(s: string, k: int)
    requires IdAt(s, k)
    ensures RefAt(s, k)
  {
    hide PageId;
    var id := s[k..k + 31];
    IdIsRef(id);
    assert forall i :: k <= i < k + 31 ==> id[i - k] == s[i];
  }

  lemma ReissuedLike(s: string, t: string)
    requires Reissued(s, t)
    ensures Like(s, t) && Alike(s, t) && Alike(t, s)
  {
    hide IdAt;
    forall i | 0 <= i < |s| && s[i] != t[i] ensures Excused(s, t, i) {
      var k :| RefAt(s, k) && IdAt(t, k) && k + 4 <= i < k + 31;
      IdAtRef(t, k);
    }
    LikeAlike(s, t);
  }

  lemma IdShifts(s: string, a: string, b: string, k: int)
    requires IdAt(s, k)
    ensures IdAt(a + s + b, |a| + k)
  {
    hide PageId;
    assert (a + s + b)[|a| + k..|a| + k + 31] == s[k..k + 31];
  }

  lemma IssuedShifts(s: string, t: string, i: int, a: string, a': string, b: string, b': string)
    requires Issued(s, t, i) && |a| == |a'|
    ensures Issued(a + s + b, a' + t + b', |a| + i)
  {
    hide RefAt, IdAt;
    var k :| RefAt(s, k) && IdAt(t, k) && k + 4 <= i < k + 31;
    RefShifts(s, a, b, k);
    IdShifts(t, a', b', k);
  }

  lemma ReissuedAppend(s: string, t: string, s': string, t': string)
    requires Reissued(s, t) && Reissued(s', t')
    ensures Reissued(s + s', t + t')
  {
    hide Issued;
    forall i | 0 <= i < |s + s'| ensures (s + s')[i] == (t + t')[i] || Issued(s + s', t + t', i) {
      assert "" + s + s' == s + s' && "" + t + t' == t + t' && s + s' + "" == s + s' && t + t' + "" == t + t';
      if i < |s| {
        if Issued(s, t, i) { IssuedShifts(s, t, i, "", "", s', t'); }
      } else {
        if Issued(s', t', i - |s|) { IssuedShifts(s', t', i - |s|, s, t, "", ""); }
      }
    }
  }

  lemma PieceReissued(p: Piece, f: Renaming)
    requires p.Ref? ==> IsRef(p.id)
    requires Issues(f)
    ensures Reissued(Text(p, Same()), Text(p, f))
  {
    hide PageId;
    match p {
      case Lit(c) =>
      case Ref(id) =>
        IdIsRef(f(id));
        assert f(id)[0..31] == f(id);
        assert IdAt(f(id), 0);
    }
  }

  lemma {:induction false} RenderReissued(ps: seq<Piece>, f: Renaming)
    requires Sound(ps) && Issues(f)
    ensures Reissued(Render(ps, Same()), Render(ps, f))
  {
    hide Issues, Reissued, Text, IsRef;
    if ps == [] {
      NothingReissued("");
    } else {
      PieceReissued(ps[0], f);
      RenderReissued(ps[1..], f);
      ReissuedAppend(Text(ps[0], Same()), Text(ps[0], f), Render(ps[1..], Same()), Render(ps[1..], f));
    }
  }

  lemma NothingReissued(s: string)
    ensures Reissued(s, s)
  {
  }

  // A cut beside a character that no reference contains.
  lemma ReissuedSplit(s: string, t: string, n: nat)
    requires Reissued(s, t) && n <= |s|
    requires n == 0 || n == |s| || !Word(s[n - 1]) || !Word(s[n])
    ensures Reissued(s[..n], t[..n]) && Reissued(s[n..], t[n..])
  {
    hide IdAt;
    forall i | 0 <= i < |s| && s[i] != t[i]
      ensures i < n ==> Issued(s[..n], t[..n], i)
      ensures n <= i ==> Issued(s[n..], t[n..], i - n)
    {
      var k :| RefAt(s, k) && IdAt(t, k) && k + 4 <= i < k + 31;
      RefIsWord(s, k);
      if i < n {
        IdSlice(t, k, 0, n);
        assert t[0..n] == t[..n];
        assert RefAt(s[..n], k);
      } else {
        IdSlice(t, k, n, |t|);
        assert t[n..|t|] == t[n..];
        assert RefAt(s[n..], k - n);
      }
    }
  }

  lemma RefIsWord(s: string, k: int)
    requires RefAt(s, k)
    ensures forall i :: k <= i < k + 31 ==> Word(s[i])
  {
  }

  lemma IdSlice(s: string, k: int, a: nat, b: nat)
    requires IdAt(s, k) && a <= k && k + 31 <= b <= |s|
    ensures IdAt(s[a..b], k - a)
  {
    hide PageId;
    var cut := s[a..b];
    assert forall i :: k <= i < k + 31 ==> cut[i - a] == s[i];
    assert cut[k - a..k - a + 31] == s[k..k + 31];
  }

  // ---------------------------------------------------------------- the same prose is visible

  lemma {:induction false} UnfencedReissued(s: string, t: string, fence: string)
    requires Reissued(s, t)
    ensures Reissued(Unfenced(Lines(s), fence), Unfenced(Lines(t), fence))
    decreases |s|
  {
    hide Reissued, Marker, Fence;
    ReissuedLike(s, t);
    FindAlike(s, t, '\n');
    var n := Find(s, '\n');
    if n == |s| {
      OneLineReissued(s, t, fence);
    } else {
      ReissuedSplit(s, t, n + 1);
      ReissuedLike(s[..n + 1], t[..n + 1]);
      MarkerAlike(s[..n + 1], t[..n + 1]);
      Heads(s[..n + 1]);
      Heads(t[..n + 1]);
      if Marker(s[..n + 1]) {
        UnfencedReissued(s[n + 1..], t[n + 1..], if fence == "" then Fence(s[..n + 1]) else if fence == Fence(s[..n + 1]) then "" else fence);
      } else {
        UnfencedReissued(s[n + 1..], t[n + 1..], fence);
        ReissuedAppend(s[..n + 1], t[..n + 1], Unfenced(Lines(s[n + 1..]), fence), Unfenced(Lines(t[n + 1..]), fence));
      }
    }
  }

  lemma OneLineReissued(s: string, t: string, fence: string)
    requires Reissued(s, t) && Alike(s, t)
    ensures Reissued(Unfenced([s], fence), Unfenced([t], fence))
  {
    hide Reissued, Marker, Fence;
    MarkerAlike(s, t);
    NothingReissued("");
    assert [s][1..] == [] && [t][1..] == [];
    assert s + "" == s && t + "" == t;
  }

  lemma {:induction false} WithoutCodeReissued(s: string, t: string)
    requires Reissued(s, t)
    ensures Reissued(WithoutCode(s), WithoutCode(t))
    decreases |s|
  {
    hide Reissued, SpanOf;
    ReissuedLike(s, t);
    SpanAlike(s, t);
    var (a, b) := SpanOf(s);
    if b < |s| {
      ReissuedSplit(s, t, a);
      ReissuedSplit(s, t, b + 1);
      WithoutCodeReissued(s[b + 1..], t[b + 1..]);
      ReissuedAppend(s[..a], t[..a], WithoutCode(s[b + 1..]), WithoutCode(t[b + 1..]));
    }
  }

  lemma VisibleReissued(s: string, t: string)
    requires Reissued(s, t)
    ensures Reissued(VisibleProse(s), VisibleProse(t))
  {
    hide Reissued, Unfenced, WithoutCode;
    NothingReissued("\n");
    ReissuedAppend(s, t, "\n", "\n");
    UnfencedReissued(s + "\n", t + "\n", "");
    WithoutCodeReissued(Unfenced(Lines(s + "\n"), ""), Unfenced(Lines(t + "\n"), ""));
  }

  // ---------------------------------------------------------------- the same matches are found

  lemma {:induction false} NameEndAlike(s: string, t: string, p: nat)
    requires Alike(s, t) && p <= |s|
    ensures NameEnd(s, p) == NameEnd(t, p)
    decreases |s| - p
  {
    if p < |s| && Alphanumeric(s[p]) { NameEndAlike(s, t, p + 1); }
  }

  // A name after an angle bracket is not part of a reference.
  lemma NameKept(s: string, t: string, p: nat, e: nat)
    requires Like(s, t) && p < e <= |s| && s[p] == '<'
    requires forall i :: p < i < e ==> Alphanumeric(s[i])
    ensures t[p] == '<' && s[p + 1..e] == t[p + 1..e]
  {
    forall i | p <= i < e ensures s[i] == t[i] {
      assert forall k :: RefAt(s, k) ==> s[k + 3] == '_';
    }
  }

  lemma ComponentKept(s: string, t: string, p: nat)
    requires Like(s, t) && p < |s| && ComponentAllowed(s, p)
    ensures ComponentAllowed(t, p)
  {
    LikeAlike(s, t);
    if p + 1 < |t| && t[p] == '<' && 'A' <= t[p + 1] <= 'Z' {
      var e := NameEnd(s, p + 1);
      NameEndAlike(s, t, p + 1);
      NameKept(s, t, p, e);
      assert s[p + 1] == s[p + 1..e][0] && t[p + 1] == t[p + 1..e][0];
    }
  }

  lemma ShapeKept(s: string, t: string, p: nat)
    requires Like(s, t) && ShapeAt(s, p)
    ensures ShapeAt(t, p)
  {
  }

  lemma PageKept(s: string, t: string, j: nat)
    requires Like(s, t) && PageAt(s, j)
    ensures PageAt(t, j) && QuoteFrom(t, j + 6) == QuoteFrom(s, j + 6)
  {
    LikeAlike(s, t);
    FindAlike(s[j + 6..], t[j + 6..], '"');
  }

  lemma {:induction false} LastPageKept(s: string, t: string, j: nat)
    requires Like(s, t)
    ensures LastPage(t, j) == LastPage(s, j)
    decreases |s| - j
  {
    hide Like, PageAt;
    LikeAlike(s, t);
    LikeSymmetric(s, t);
    if j < |s| {
      LastPageKept(s, t, j + 1);
      if PageAt(s, j) { PageKept(s, t, j); }
      if PageAt(t, j) { PageKept(t, s, j); }
    }
  }

  // A captured identifier is replaced as a whole or not at all.
  lemma CaptureKept(s: string, t: string, j: nat, e: nat)
    requires Reissued(s, t) && 6 <= j <= e <= |s| && s[j - 1] == '"' && PageId(s[j..e])
    ensures PageId(t[j..e])
  {
    hide PageId, IdAt;
    assert e == j + 31 by { IdIsRef(s[j..e]); }
    assert IdAt(s, j) by { Whole(s, j); }
    IdAtRef(s, j);
    if i :| j <= i < e && s[i] != t[i] {
      var k :| RefAt(s, k) && IdAt(t, k) && k + 4 <= i < k + 31;
      RefIsWord(s, k);
      assert s[k + 3] == '_';
      assert k == j;
      Whole(t, j);
    } else {
      assert s[j..e] == t[j..e];
    }
  }

  lemma Whole(s: string, k: nat)
    requires k + 31 <= |s|
    ensures IdAt(s, k) == PageId(s[k..k + 31])
  {
  }

  lemma CheckedKept(s: string, t: string, p: nat)
    requires Like(s, t)
    ensures Checked(t, p) == Checked(s, p)
    ensures Checked(s, p) >= 0 ==> QuoteFrom(t, Checked(s, p) + 6) == QuoteFrom(s, Checked(s, p) + 6)
  {
    hide Like, LastPage, ShapeAt;
    LikeSymmetric(s, t);
    if ShapeAt(s, p) { ShapeKept(s, t, p); LastPageKept(s, t, p + 6); }
    if ShapeAt(t, p) { ShapeKept(t, s, p); }
    if Checked(s, p) >= 0 { PageKept(s, t, Checked(s, p)); }
  }

  lemma AllPageIdsCons(c: string, more: seq<string>)
    ensures AllPageIds([c] + more) <==> PageId(c) && AllPageIds(more)
  {
    hide PageId;
    assert ([c] + more)[0] == c && forall i :: 0 <= i < |more| ==> ([c] + more)[i + 1] == more[i];
  }

  lemma {:induction false} CapturesKept(s: string, t: string, p: nat)
    requires Reissued(s, t) && AllPageIds(Captures(s, p))
    ensures AllPageIds(Captures(t, p))
    decreases |s| - p
  {
    hide Reissued, PageId, Checked, Like, Alike, AllPageIds, QuoteFrom;
    ReissuedLike(s, t);
    assert |t| == |s| by { LikeLength(s, t); }
    if p < |s| {
      CheckedKept(s, t, p);
      var j := Checked(s, p);
      if j < 0 {
        CapturesKept(s, t, p + 1);
      } else {
        var e := QuoteFrom(s, j + 6);
        AllPageIdsCons(s[j + 6..e], Captures(s, e + 1));
        AllPageIdsCons(t[j + 6..e], Captures(t, e + 1));
        CapturesKept(s, t, e + 1);
        CaptureKept(s, t, j + 6, e);
      }
    }
  }

  lemma LikeLength(s: string, t: string)
    requires Like(s, t)
    ensures |t| == |s|
  {
  }

  lemma ProseAllowedKept(s: string, t: string)
    requires Reissued(s, t) && ProseAllowed(s)
    ensures ProseAllowed(t)
  {
    hide Reissued, ComponentAllowed, Captures, PageId, Like;
    ReissuedLike(s, t);
    CapturesKept(s, t, 0);
    forall p | 0 <= p < |t| ensures ComponentAllowed(t, p) { ComponentKept(s, t, p); }
  }

  lemma {:induction false} Utf8LengthAlike(s: string, t: string)
    requires Alike(s, t)
    ensures Utf8Length(s) == Utf8Length(t)
  {
    if s != "" { Utf8LengthAlike(s[1..], t[1..]); }
  }

  // Renaming page references to valid identifiers keeps a valid note valid.
  lemma ValidNoteRemapped(body: string, f: Renaming)
    requires ValidNote(body) && Issues(f)
    ensures ValidNote(Remapped(body, f))
  {
    hide Reissued, ProseAllowed, VisibleProse, Issues, Like, Sound;
    var out := Remapped(body, f);
    NoteFlat(body);
    RenderReissued(NotePieces(body), f);
    ReissuedLike(body, out);
    Utf8LengthAlike(body, out);
    VisibleReissued(body, out);
    ProseAllowedKept(VisibleProse(body), VisibleProse(out));
  }

  // ---------------------------------------------------------------- notes of letters only

  predicate Letters(s: string) {
    forall i :: 0 <= i < |s| ==> 'a' <= s[i] <= 'z'
  }

  lemma {:induction false} LettersLength(s: string)
    requires Letters(s)
    ensures Utf8Length(s) == |s|
  {
    if s != "" { LettersLength(s[1..]); }
  }

  lemma LettersTrimmed(s: string)
    requires Letters(s)
    ensures Trim(s) == s && Trim(s + "\n") == s && !Marker(s) && !Marker(s + "\n")
  {
    assert (s + "\n")[..|s|] == s;
    if s == "" { assert (s + "\n")[1..] == s; }
  }

  lemma LettersVisible(s: string)
    requires Letters(s)
    ensures VisibleProse(s) == s + "\n"
  {
    hide Trim, Marker;
    var t := s + "\n";
    assert t[|s|] == '\n' && Find(t, '\n') == |s|;
    assert t[..|s| + 1] == t && t[|s| + 1..] == "";
    assert Lines("") == [""] && Lines(t) == [t] + [""];
    LettersTrimmed(s);
    LettersTrimmed("");
    assert ([t] + [""])[1..] == [""] && [""][1..] == [];
    assert Unfenced([""], "") == "" + "" && Unfenced([t] + [""], "") == t + "";
    assert Find(t, '`') == |t|;
  }

  lemma {:induction false} NothingCaptured(s: string, p: nat)
    requires forall i :: 0 <= i < |s| ==> s[i] != '<'
    ensures Captures(s, p) == []
    decreases |s| - p
  {
    if p < |s| { NothingCaptured(s, p + 1); }
  }

  lemma LettersAreValid(s: string)
    requires Letters(s) && |s| <= MAX_NOTE_BYTES
    ensures ValidNote(s)
  {
    hide VisibleProse, Captures, PageId, NameEnd;
    LettersLength(s);
    LettersVisible(s);
    NothingCaptured(s + "\n", 0);
  }

  // ---------------------------------------------------------------- the loop

  // Collects the visible lines, then examines them.
  method ValidateNote(body: string) returns (ok: bool)
    requires Utf8Length(body) <= MAX_NOTE_BYTES && forall i :: 0 <= i < |body| ==> body[i] != '\0'
    ensures ok == ValidNote(body)
  {
    hide Lines, Marker, Fence, Trim, ComponentAllowed, PageId, Captures, WithoutCode;
    var lines := Lines(body + "\n");
    var visible, fence := "", "";
    for i := 0 to |lines|
      invariant visible + Unfenced(lines[i..], fence) == Unfenced(lines, "")
    {
      assert lines[i..][1..] == lines[i + 1..];
      if Marker(lines[i]) {
        var marker := Fence(lines[i]);
        if fence == "" {
          fence := marker;
        } else if fence == marker {
          fence := "";
        }
        continue;
      }
      if fence == "" {
        visible := visible + lines[i];
      }
    }
    assert lines[|lines|..] == [] && visible + "" == visible;
    assert visible == Unfenced(lines, "");
    var prose := WithoutCode(visible);
    assert prose == VisibleProse(body);
    for p := 0 to |prose|
      invariant forall q :: 0 <= q < p ==> ComponentAllowed(prose, q)
    {
      if !ComponentAllowed(prose, p) { return false; }
    }
    var refs := Captures(prose, 0);
    for i := 0 to |refs|
      invariant forall k :: 0 <= k < i ==> PageId(refs[k])
    {
      if !PageId(refs[i]) { return false; }
    }
    return true;
  }
}

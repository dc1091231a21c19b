/** The places in a whole note that a renaming reaches: which lines and which stretches of prose hold them,
    told from the lines alone. */
module NoteRenamed {
  import opened Strings
  import opened NoteRemap
  import opened NoteRemapLines
  import opened NotePlaces

  // ---------------------------------------------------------------- what a line is

  // Only white space from i up to n.
  predicate Blank(s: string, i: int, n: int) {
    forall k :: i <= k < n && 0 <= k < |s| ==> Space(s[k])
  }

  // Three of c, behind nothing but white space.
  predicate Thrice(line: string, c: char, n: int) {
    0 <= n && n + 3 <= |line| && line[n] == c && line[n + 1] == c && line[n + 2] == c && Blank(line, 0, n)
  }

  ghost predicate Behind(line: string, c: char) {
    exists n :: Thrice(line, c, n)
  }

  lemma {:induction false} TrimStarts(s: string, c: char)
    requires !Space(c)
    ensures Starts(Trim(s), c) <==> Behind(s, c)
    decreases |s|
  {
    hide Space, Behind;
    if s != "" && Space(s[0]) {
      TrimStarts(s[1..], c);
      BehindFirst(s, c);
    } else if s != "" && Space(s[|s| - 1]) {
      TrimStarts(s[..|s| - 1], c);
      BehindLast(s, c);
    } else {
      BehindNothing(s, c);
    }
  }

  lemma BehindFirst(s: string, c: char)
    requires s != "" && Space(s[0]) && !Space(c)
    ensures Behind(s, c) <==> Behind(s[1..], c)
  {
    hide Space;
    var t := s[1..];
    if Behind(t, c) {
      var n :| Thrice(t, c, n);
      assert forall k :: 1 <= k < n + 1 ==> s[k] == t[k - 1];
      assert Thrice(s, c, n + 1);
    }
    if Behind(s, c) {
      var n :| Thrice(s, c, n);
      assert Thrice(t, c, n - 1);
    }
  }

  lemma BehindLast(s: string, c: char)
    requires s != "" && Space(s[|s| - 1]) && !Space(c)
    ensures Behind(s, c) <==> Behind(s[..|s| - 1], c)
  {
    hide Space;
    var t := s[..|s| - 1];
    if Behind(t, c) {
      var n :| Thrice(t, c, n);
      assert Thrice(s, c, n);
    }
    if Behind(s, c) {
      var n :| Thrice(s, c, n);
      assert Thrice(t, c, n);
    }
  }

  lemma BehindNothing(s: string, c: char)
    requires s == "" || !Space(s[0])
    ensures Behind(s, c) <==> Starts(s, c)
  {
    hide Space;
    if Starts(s, c) { assert Thrice(s, c, 0); }
  }

  predicate Starts(s: string, c: char) {
    |s| >= 3 && s[0] == c && s[1] == c && s[2] == c
  }

  // A line opens or closes a fence exactly if it starts, behind white space, with three backticks or tildes.
  lemma MarkerExactly(line: string)
    ensures Marker(line) <==> Behind(line, '`') || Behind(line, '~')
  {
    hide Trim, Behind;
    TrimStarts(line, '`');
    TrimStarts(line, '~');
    Marked(line);
  }

  // It closes a fence exactly if it does so with the fence's own character.
  lemma ClosesExactly(line: string, opening: string)
    requires Marker(opening)
    ensures Closes(line, opening) <==> (Behind(opening, '`') && Behind(line, '`')) || (Behind(opening, '~') && Behind(line, '~'))
  {
    hide Trim, Behind;
    TrimStarts(line, '`');
    TrimStarts(line, '~');
    TrimStarts(opening, '`');
    TrimStarts(opening, '~');
    Marked(line);
    Marked(opening);
  }

  lemma Marked(line: string)
    ensures Marker(line) <==> Starts(Trim(line), '`') || Starts(Trim(line), '~')
    ensures Marker(line) ==> Fence(line) == (if Starts(Trim(line), '`') then "```" else "~~~")
  {
    hide Trim;
  }

  predicate Closes(line: string, opening: string)
    requires Marker(opening)
  {
    Marker(line) && Fence(line) == Fence(opening)
  }

  // A rule is three hyphens and nothing else but white space.
  lemma {:induction false} RuleExactly(line: string)
    ensures Rule(line) <==> exists n :: Thrice(line, '-', n) && Blank(line, n + 3, |line|)
    decreases |line|
  {
    hide Space;
    var s := line;
    assert !Space('-') by { Hyphen(); }
    if s != "" && Space(s[0]) {
      RuleExactly(s[1..]);
      if n :| Thrice(s[1..], '-', n) && Blank(s[1..], n + 3, |s| - 1) { RuleEarlier(s, n); }
      if n :| Thrice(s, '-', n) && Blank(s, n + 3, |s|) { RuleLater(s, n); }
    } else if s != "" && Space(s[|s| - 1]) {
      RuleExactly(s[..|s| - 1]);
      var t := s[..|s| - 1];
      if n :| Thrice(t, '-', n) && Blank(t, n + 3, |t|) {
        assert Thrice(s, '-', n);
        assert Blank(s, n + 3, |s|);
      }
      if n :| Thrice(s, '-', n) && Blank(s, n + 3, |s|) {
        assert Thrice(t, '-', n);
        assert Blank(t, n + 3, |t|);
      }
    } else {
      if Rule(s) { assert Thrice(s, '-', 0) && Blank(s, 3, |s|); }
      if n :| Thrice(s, '-', n) && Blank(s, n + 3, |s|) { assert n == 0 && |s| == 3; }
    }
  }

  lemma Hyphen()
    ensures !Space('-')
  {
  }

  lemma RuleEarlier(s: string, n: int)
    requires s != "" && Space(s[0]) && Thrice(s[1..], '-', n) && Blank(s[1..], n + 3, |s| - 1)
    ensures Thrice(s, '-', n + 1) && Blank(s, n + 4, |s|)
  {
    hide Space;
    forall k | 1 <= k < |s| ensures s[k] == s[1..][k - 1] { }
  }

  lemma RuleLater(s: string, n: int)
    requires s != "" && Space(s[0]) && Thrice(s, '-', n) && Blank(s, n + 3, |s|)
    ensures Thrice(s[1..], '-', n - 1) && Blank(s[1..], n + 2, |s| - 1)
  {
    hide Space;
    assert n > 0 by { Hyphen(); }
    forall k | 1 <= k < |s| ensures s[k] == s[1..][k - 1] { }
  }

  // Every line but the last is fed, and the last has no line feed.
  predicate AllFed(lines: seq<string>) {
    lines != [] && '\n' !in lines[|lines| - 1] && forall i :: 0 <= i < |lines| - 1 ==> Fed(lines[i])
  }

  lemma FedFirst(line: string, lines: seq<string>)
    requires Fed(line) && AllFed(lines)
    ensures AllFed([line] + lines)
  {
    hide Fed;
    assert forall i :: 0 <= i < |lines| ==> ([line] + lines)[i + 1] == lines[i];
  }

  lemma FirstFed(s: string, n: nat)
    requires n == Find(s, '\n') < |s|
    ensures Fed(s[..n + 1])
  {
    hide Find;
    FeedAt(s, n);
  }

  lemma FeedAt(s: string, n: nat)
    requires n == Find(s, '\n') < |s|
    ensures s[n] == '\n' && '\n' !in s[..n] && s[..n + 1][..n] == s[..n]
  {
  }

  // The lines of a note are its text, cut behind every line feed.
  lemma {:induction false} LinesExactly(s: string)
    ensures Joined(Lines(s)) == s && AllFed(Lines(s))
    decreases |s|
  {
    hide Find, AllFed, Fed, Joined;
    LinesJoin(s);
    var n := Find(s, '\n');
    if n < |s| {
      LinesExactly(s[n + 1..]);
      FirstFed(s, n);
      FedFirst(s[..n + 1], Lines(s[n + 1..]));
    } else {
      NothingFed(s);
    }
  }

  lemma NothingFed(s: string)
    requires Find(s, '\n') == |s|
    ensures AllFed([s])
  {
  }

  // One line feed, at the end.
  predicate Fed(line: string) {
    line != "" && line[|line| - 1] == '\n' && '\n' !in line[..|line| - 1]
  }

  // ---------------------------------------------------------------- frontmatter

  // Line i is a line of the frontmatter other than its two rules.
  predicate InFront(lines: seq<string>, i: int) {
    1 <= i < |lines| && Rule(lines[0]) && forall j :: 1 <= j <= i ==> !Rule(lines[j])
  }

  // A line that starts a field.
  predicate StartsField(line: string) {
    line != "" && line[0] != ' ' && line[0] != '\t' && line[0] != '-'
  }

  // The field is one of the two whose references are renamed.
  predicate Names(line: string) {
    HasPrefix(line, "pages:") || line == "pages" || HasPrefix(line, "elements:") || line == "elements"
  }

  // Line i belongs to such a field: it was started last.
  predicate FieldLine(lines: seq<string>, i: int) {
    InFront(lines, i) && exists j :: 1 <= j <= i && StartedAt(lines, j, i) && Names(lines[j])
  }

  predicate StartedAt(lines: seq<string>, j: int, i: int) {
    0 <= j <= i < |lines| && StartsField(lines[j]) && forall h :: j < h <= i ==> !StartsField(lines[h])
  }

  lemma NamesExactly(line: string)
    ensures Listed(line[..Find(line, ':')]) <==> Names(line)
  {
    var n := Find(line, ':');
    if HasPrefix(line, "pages:") { assert line[5] == ':' && forall i :: 0 <= i < 5 ==> line[i] == "pages:"[i]; }
    if HasPrefix(line, "elements:") { assert line[8] == ':' && forall i :: 0 <= i < 8 ==> line[i] == "elements:"[i]; }
    if Listed(line[..n]) {
      if n < |line| { assert line[..n + 1] == line[..n] + ":"; } else { assert line[..n] == line; }
    }
  }

  // ---------------------------------------------------------------- prose

  // No fence opens or closes from line a up to line b.
  predicate Plain(lines: seq<string>, a: int, b: int) {
    forall h :: a <= h < b && 0 <= h < |lines| ==> !Marker(lines[h])
  }

  // A fence opens at line m and is closed at line c.
  predicate FenceFrom(lines: seq<string>, m: int, c: int) {
    0 <= m < c < |lines| && Marker(lines[m]) && Closes(lines[c], lines[m]) && forall h :: m < h < c ==> !Closes(lines[h], lines[m])
  }

  // Prose starts at line a: at the top, behind the frontmatter, or behind a fence that prose runs into.
  predicate ProseFrom(lines: seq<string>, a: int)
    decreases a
  {
    if a <= 0 then a == 0 && lines != [] && !Rule(lines[0])
    else
      a <= |lines| && (BehindFront(lines, a - 1) || exists p, m :: 0 <= p <= m < a - 1 && ProseFrom(lines, p) && Plain(lines, p, m) && FenceFrom(lines, m, a - 1))
  }

  // Line c closes the frontmatter.
  predicate BehindFront(lines: seq<string>, c: int) {
    1 <= c < |lines| && Rule(lines[0]) && Rule(lines[c]) && forall j :: 1 <= j < c ==> !Rule(lines[j])
  }

  // A stretch of prose: lines a to b, up to the next fence or the end.
  predicate Stretch(lines: seq<string>, a: int, b: int) {
    0 <= a <= b <= |lines| && ProseFrom(lines, a) && Plain(lines, a, b) && (b < |lines| ==> Marker(lines[b]))
  }

  // ---------------------------------------------------------------- where the scan stands

  lemma {:induction false} ReachedNext(lines: seq<string>, mode: Mode, i: nat)
    requires i < |lines|
    ensures Reached(lines, mode, i + 1) == After(Reached(lines, mode, i), lines[i])
    decreases i
  {
    hide After;
    if i > 0 { ReachedNext(lines[1..], After(mode, lines[0]), i - 1); }
  }

  lemma ModeNext(body: string, i: nat)
    requires i < |Lines(body)|
    ensures ModeBefore(body, i + 1) ==
      if i == 0 && Rule(Lines(body)[0]) then Front("") else After(ModeBefore(body, i), Lines(body)[i])
  {
    hide After, Rule, Lines;
    var lines := Lines(body);
    if Rule(lines[0]) {
      if i > 0 { ReachedNext(lines[1..], Front(""), i - 1); }
    } else {
      ReachedNext(lines, Prose(""), i);
    }
  }

  // The field that line i - 1 belongs to.
  ghost predicate FieldIs(lines: seq<string>, i: int, field: string) {
    || (exists j :: 1 <= j && StartedAt(lines, j, i - 1) && field == lines[j][..Find(lines[j], ':')])
    || (field == "" && forall h :: 1 <= h < i && h < |lines| ==> !StartsField(lines[h]))
  }

  // What the scan knows before line i.
  ghost predicate Told(lines: seq<string>, i: int, mode: Mode) {
    match mode
    case Front(field) => 1 <= i && lines != [] && Rule(lines[0]) && (forall j :: 1 <= j < i && j < |lines| ==> !Rule(lines[j])) && FieldIs(lines, i, field)
    case Prose(text) => exists a :: ProseSince(lines, a, i) && text == Joined(lines[a..i])
    case Fenced(fence) => (i == 0 && lines != [] && Rule(lines[0])) || exists m :: FencedSince(lines, m, i) && fence == Fence(lines[m])
  }

  predicate ProseSince(lines: seq<string>, a: int, i: int) {
    0 <= a <= i <= |lines| && ProseFrom(lines, a) && Plain(lines, a, i)
  }

  ghost predicate FencedSince(lines: seq<string>, m: int, i: int) {
    && 0 <= m < i <= |lines| && Marker(lines[m])
    && (exists p :: ProseSince(lines, p, m))
    && forall h :: m < h < i ==> !Closes(lines[h], lines[m])
  }

  lemma ToldFront(lines: seq<string>, i: int, field: string)
    requires 1 <= i < |lines| && Told(lines, i, Front(field))
    ensures Told(lines, i + 1, After(Front(field), lines[i]))
  {
    hide Rule, Find, Marker, Listed, Joined;
    if Rule(lines[i]) {
      assert BehindFront(lines, i);
      assert ProseSince(lines, i + 1, i + 1);
      assert lines[i + 1..i + 1] == [];
      Nothing();
    } else {
      FieldNext(lines, i, field);
    }
  }

  lemma Nothing()
    ensures Joined([]) == ""
  {
  }

  lemma FieldNext(lines: seq<string>, i: int, field: string)
    requires 1 <= i < |lines| && FieldIs(lines, i, field)
    ensures FieldIs(lines, i + 1, FieldAt(field, lines[i]))
  {
    hide Find;
    if StartsField(lines[i]) {
      assert StartedAt(lines, i, i);
    } else if j :| 1 <= j && StartedAt(lines, j, i - 1) && field == lines[j][..Find(lines[j], ':')] {
      assert StartedAt(lines, j, i);
    }
  }

  lemma {:induction false} JoinedMore(lines: seq<string>, line: string)
    ensures Joined(lines + [line]) == Joined(lines) + line
  {
    if lines == [] {
      assert [line][1..] == [] && lines + [line] == [line];
    } else {
      assert (lines + [line])[1..] == lines[1..] + [line];
      JoinedMore(lines[1..], line);
    }
  }

  lemma ToldProse(lines: seq<string>, i: int, text: string)
    requires 0 <= i < |lines| && Told(lines, i, Prose(text))
    ensures Told(lines, i + 1, After(Prose(text), lines[i]))
  {
    hide Rule, Marker, Fence, ProseFrom, Closes, Joined;
    var a :| ProseSince(lines, a, i) && text == Joined(lines[a..i]);
    if Marker(lines[i]) {
      assert FencedSince(lines, i, i + 1);
    } else {
      assert lines[a..i + 1] == lines[a..i] + [lines[i]];
      JoinedMore(lines[a..i], lines[i]);
      assert ProseSince(lines, a, i + 1);
    }
  }

  lemma ToldFenced(lines: seq<string>, m: int, i: int)
    requires i < |lines| && FencedSince(lines, m, i)
    ensures Told(lines, i + 1, After(Fenced(Fence(lines[m])), lines[i]))
  {
    hide Rule, Marker, Fence, ProseFrom, Closes, HasPrefix, Trim, Joined;
    ClosingLine(lines[i], lines[m]);
    if Closes(lines[i], lines[m]) {
      var p :| ProseSince(lines, p, m);
      assert FenceFrom(lines, m, i);
      FenceEnds(lines, p, m, i);
      assert ProseSince(lines, i + 1, i + 1);
      assert lines[i + 1..i + 1] == [];
      Nothing();
    } else {
      assert FencedSince(lines, m, i + 1);
    }
  }

  lemma FenceEnds(lines: seq<string>, p: int, m: int, c: int)
    requires ProseSince(lines, p, m) && FenceFrom(lines, m, c)
    ensures ProseFrom(lines, c + 1)
  {
    hide Rule, Marker, Closes, Plain;
    assert 0 <= p <= m < c && ProseFrom(lines, p) && Plain(lines, p, m) && FenceFrom(lines, m, c);
  }

  lemma ClosingLine(line: string, opening: string)
    requires Marker(opening)
    ensures Closes(line, opening) <==> Marker(line) && HasPrefix(Trim(line), Fence(opening))
  {
    hide Trim;
    Marked(line);
    Marked(opening);
  }

  lemma {:induction false} ToldAt(body: string, i: nat)
    requires i <= |Lines(body)|
    ensures Told(Lines(body), i, ModeBefore(body, i))
    decreases i
  {
    hide Rule, Lines, Told, After, Reached;
    var lines := Lines(body);
    if i == 0 {
      ToldFirst(body);
    } else {
      ToldAt(body, i - 1);
      ModeNext(body, i - 1);
      var mode := ModeBefore(body, i - 1);
      if i == 1 && Rule(lines[0]) {
        ToldSecond(lines);
      } else {
        ToldNext(lines, i - 1, mode);
      }
    }
  }

  lemma ToldFirst(body: string)
    ensures Told(Lines(body), 0, ModeBefore(body, 0))
  {
    hide Rule, Lines, Marker, Closes, Find, Joined;
    var lines := Lines(body);
    Nothing();
    if !Rule(lines[0]) {
      assert ProseSince(lines, 0, 0) && lines[0..0] == [];
    }
  }

  lemma ToldSecond(lines: seq<string>)
    requires lines != [] && Rule(lines[0])
    ensures Told(lines, 1, Front(""))
  {
    hide Rule, Find;
  }

  lemma ToldNext(lines: seq<string>, i: int, mode: Mode)
    requires 0 <= i < |lines| && Told(lines, i, mode) && !(i == 0 && Rule(lines[0]))
    ensures Told(lines, i + 1, After(mode, lines[i]))
  {
    hide Rule, Told, After, Closes, Fence, Marker;
    match mode
    case Front(field) =>
      FrontFrom(lines, i, field);
      ToldFront(lines, i, field);
    case Prose(text) => ToldProse(lines, i, text);
    case Fenced(fence) =>
      var m := Opening(lines, i, fence);
      ToldFenced(lines, m, i);
  }

  lemma FrontFrom(lines: seq<string>, i: int, field: string)
    requires Told(lines, i, Front(field))
    ensures 1 <= i
  {
  }

  lemma Opening(lines: seq<string>, i: int, fence: string) returns (m: int)
    requires Told(lines, i, Fenced(fence)) && !(i == 0 && lines != [] && Rule(lines[0]))
    ensures FencedSince(lines, m, i) && fence == Fence(lines[m])
  {
    hide Rule, Marker, Closes;
    m :| FencedSince(lines, m, i) && fence == Fence(lines[m]);
  }

  // ---------------------------------------------------------------- where prose starts

  lemma {:induction false} StillFront(body: string, i: nat)
    requires 1 <= i <= |Lines(body)| && Rule(Lines(body)[0]) && forall j :: 1 <= j < i ==> !Rule(Lines(body)[j])
    ensures ModeBefore(body, i).Front?
    decreases i
  {
    hide Rule, Lines, Marker, Reached, HasPrefix, Trim, ModeBefore;
    ModeNext(body, i - 1);
    if i > 1 { StillFront(body, i - 1); }
  }

  lemma {:induction false} StillFenced(body: string, m: nat, i: nat)
    requires m < i <= |Lines(body)| && Marker(Lines(body)[m]) && ModeBefore(body, m).Prose?
    requires forall h :: m < h < i ==> !Closes(Lines(body)[h], Lines(body)[m])
    requires m == 0 ==> !Rule(Lines(body)[0])
    ensures ModeBefore(body, i) == Fenced(Fence(Lines(body)[m]))
    decreases i
  {
    hide Rule, Lines, Marker, Reached, HasPrefix, Trim, ModeBefore, Closes;
    ModeNext(body, i - 1);
    if i - 1 > m {
      StillFenced(body, m, i - 1);
      ClosingLine(Lines(body)[i - 1], Lines(body)[m]);
    }
  }

  lemma ProseTop(body: string)
    ensures ModeBefore(body, 0).Prose? ==> !Rule(Lines(body)[0])
  {
    hide Rule, Lines;
  }

  lemma AfterFence(body: string, m: nat, c: nat)
    requires FenceFrom(Lines(body), m, c) && ModeBefore(body, m).Prose?
    ensures ModeBefore(body, c + 1) == Prose("")
  {
    hide Rule, Lines, Marker, Reached, HasPrefix, Trim, ModeBefore, Closes, Fence;
    ProseTop(body);
    StillFenced(body, m, c);
    ModeNext(body, c);
    ClosingLine(Lines(body)[c], Lines(body)[m]);
  }

  lemma AfterFront(body: string, c: nat)
    requires BehindFront(Lines(body), c)
    ensures ModeBefore(body, c + 1) == Prose("")
  {
    hide Rule, Lines, Marker, Reached, ModeBefore;
    StillFront(body, c);
    ModeNext(body, c);
  }

  // Where prose starts the scan has nothing pending.
  lemma {:induction false} ProseBegins(body: string, a: nat)
    requires ProseFrom(Lines(body), a)
    ensures a <= |Lines(body)| && ModeBefore(body, a) == Prose("")
    decreases a, 0
  {
    hide Rule, Lines, Marker, Closes;
    var lines := Lines(body);
    if a > 0 {
      if BehindFront(lines, a - 1) {
        AfterFront(body, a - 1);
      } else {
        var p, m :| 0 <= p <= m < a - 1 && ProseFrom(lines, p) && Plain(lines, p, m) && FenceFrom(lines, m, a - 1);
        ProseOn(body, p, m);
        AfterFence(body, m, a - 1);
      }
    }
  }

  lemma {:induction false} ProseOn(body: string, a: nat, i: nat)
    requires a <= i <= |Lines(body)| && ProseFrom(Lines(body), a) && Plain(Lines(body), a, i)
    ensures ModeBefore(body, i).Prose?
    decreases i, 1
  {
    hide Rule, Lines, Marker, Closes, ProseFrom, ModeBefore, Reached;
    if a == i {
      ProseBegins(body, a);
    } else {
      ProseOn(body, a, i - 1);
      ProseTop(body);
      ModeNext(body, i - 1);
    }
  }

  // ---------------------------------------------------------------- what becomes of a line

  lemma FieldLineScanned(body: string, i: nat)
    requires FieldLine(Lines(body), i)
    ensures ModeBefore(body, i).Front? && !Rule(Lines(body)[i]) && Listed(FieldAt(ModeBefore(body, i).field, Lines(body)[i]))
  {
    hide Rule, Lines, Find, ModeBefore, Listed, FieldAt, Names;
    var lines := Lines(body);
    StillFront(body, i);
    ToldAt(body, i);
    FieldNext(lines, i, ModeBefore(body, i).field);
    var j :| 1 <= j <= i && StartedAt(lines, j, i) && Names(lines[j]);
    NamesExactly(lines[j]);
  }

  lemma ScannedFieldLine(body: string, i: nat)
    requires i < |Lines(body)| && ModeBefore(body, i).Front? && !Rule(Lines(body)[i])
    requires Listed(FieldAt(ModeBefore(body, i).field, Lines(body)[i]))
    ensures FieldLine(Lines(body), i)
  {
    hide Rule, Lines, Find, ModeBefore, FieldAt, Names;
    var lines := Lines(body);
    var field := FieldAt(ModeBefore(body, i).field, lines[i]);
    ToldAt(body, i);
    FieldNext(lines, i, ModeBefore(body, i).field);
    var j :| 1 <= j && StartedAt(lines, j, i) && field == lines[j][..Find(lines[j], ':')];
    NamesExactly(lines[j]);
  }

  lemma HeadListed(lines: seq<string>, field: string, f: Renaming)
    requires KeepsShape(f) && lines != [] && !Rule(lines[0]) && Listed(FieldAt(field, lines[0]))
    ensures Written(lines, Front(field), f) != [] && Written(lines, Front(field), f)[0] == Render(RefPieces(lines[0]), f)
  {
    hide Render, KeepsShape, RefPieces, Rule, FieldAt, Listed;
    var line, here := lines[0], FieldAt(field, lines[0]);
    RefPiecesFlat(line);
    SameLength(RefPieces(line), f);
    RenderAppend(RefPieces(line), Scan(lines[1..], Front(here)), f);
    var out := Out(lines, Front(field), f);
    assert out[0..] == out && out[..|line|] == Render(RefPieces(line), f);
  }

  // A line of the two fields has exactly its leftmost references renamed.
  lemma FieldLineRenamed(body: string, i: nat, f: Renaming)
    requires KeepsShape(f) && FieldLine(Lines(body), i)
    ensures |Lines(Remapped(body, f))| == |Lines(body)|
    ensures Placed(Lines(body)[i], Lines(Remapped(body, f))[i], f, LeftmostRefs(Lines(body)[i]))
  {
    hide KeepsShape, Written, After, Lines, Rule, Remapped, Render, RefPieces, Placed, LeftmostRefs, Listed, FieldAt;
    var lines := Lines(body);
    FieldLineScanned(body, i);
    NoteWritten(body, f);
    var field := ModeBefore(body, i).field;
    assert Rule(lines[0]) && i >= 1;
    WrittenFrom(lines[1..], Front(""), i - 1, f);
    assert lines[1..][i - 1..] == lines[i..] && lines[i..][0] == lines[i];
    HeadListed(lines[i..], field, f);
    assert Lines(Remapped(body, f))[i] == Written(lines[1..], Front(""), f)[i - 1] == Written(lines[1..], Front(""), f)[i - 1..][0];
    LineRenamed(lines[i], f);
  }

  // A stretch of prose has exactly the page attributes of its Shape tags renamed, outside inline code.
  lemma StretchRenamed(body: string, a: nat, b: nat, f: Renaming)
    requires KeepsShape(f) && Stretch(Lines(body), a, b)
    ensures |Lines(Remapped(body, f))| == |Lines(body)|
    ensures Placed(Joined(Lines(body)[a..b]), Joined(Lines(Remapped(body, f))[a..b]), f, ProsePlaces(Joined(Lines(body)[a..b])))
  {
    hide KeepsShape, ModeBefore, Lines, Marker, Remapped, Render, ProsePieces, Placed, ProsePlaces, ProseFrom, Joined;
    ProseBegins(body, a);
    ProseIsRenamedAsAWhole(body, a, b, f);
    ProseRenamed(Joined(Lines(body)[a..b]), f);
  }

  lemma {:induction false} EndOf(lines: seq<string>, a: nat, i: nat) returns (b: nat)
    requires ProseSince(lines, a, i)
    ensures i <= b && Stretch(lines, a, b)
    decreases |lines| - i
  {
    hide Marker, ProseFrom;
    if i < |lines| && !Marker(lines[i]) { b := EndOf(lines, a, i + 1); } else { b := i; }
  }

  // Every line is in one of the two fields, in a stretch of prose, or kept.
  lemma LineKinds(body: string, i: nat, f: Renaming)
    requires KeepsShape(f) && i < |Lines(body)| && !FieldLine(Lines(body), i)
    requires forall a, b :: Stretch(Lines(body), a, b) ==> !(a <= i < b)
    ensures |Lines(Remapped(body, f))| == |Lines(body)| && Lines(Remapped(body, f))[i] == Lines(body)[i]
  {
    hide KeepsShape, ModeBefore, Lines, Marker, Remapped, Rule, Listed, FieldAt, Stretch, FieldLine, ProseFrom, Joined;
    ToldAt(body, i);
    var lines, mode := Lines(body), ModeBefore(body, i);
    if mode.Front? && !Rule(lines[i]) && Listed(FieldAt(mode.field, lines[i])) { ScannedFieldLine(body, i); }
    if mode.Prose? && !Marker(lines[i]) {
      var a :| ProseSince(lines, a, i) && mode.text == Joined(lines[a..i]);
      var b := EndOf(lines, a, i);
      assert ProseSince(lines, a, i + 1);
      var c := EndOf(lines, a, i + 1);
    }
    CodeAndFieldsUnchanged(body, i, f);
  }

  // ---------------------------------------------------------------- the whole note

  // Where line i starts in the text.
  function Start(lines: seq<string>, i: int): nat
    requires 0 <= i <= |lines|
  {
    |Joined(lines[..i])|
  }

  // A reference that is renamed starts at k: one in a line of the two fields, or in prose.
  ghost predicate NotePlace(body: string, k: int) {
    || (exists i :: LinePlace(Lines(body), i, k))
    || (exists a, b :: StretchPlace(Lines(body), a, b, k))
  }

  predicate LinePlace(lines: seq<string>, i: int, k: int) {
    FieldLine(lines, i) && Leftmost(lines[i], k - Start(lines, i))
  }

  ghost predicate StretchPlace(lines: seq<string>, a: int, b: int, k: int) {
    Stretch(lines, a, b) && ProsePlace(Joined(lines[a..b]), k - Start(lines, a))
  }

  ghost function NotePlacesOf(body: string): set<int> {
    set k | 0 <= k < |body| && NotePlace(body, k)
  }

  lemma {:induction false} JoinedAppend(lines: seq<string>, more: seq<string>)
    ensures Joined(lines + more) == Joined(lines) + Joined(more)
  {
    if lines == [] {
      assert lines + more == more;
    } else {
      assert (lines + more)[1..] == lines[1..] + more;
      JoinedAppend(lines[1..], more);
    }
  }

  lemma Cut(lines: seq<string>, a: nat, b: nat)
    requires a <= b <= |lines|
    ensures Start(lines, a) + |Joined(lines[a..b])| == Start(lines, b) <= |Joined(lines)|
    ensures Joined(lines)[Start(lines, a)..Start(lines, b)] == Joined(lines[a..b])
  {
    hide Joined;
    assert lines[..b] == lines[..a] + lines[a..b] && lines == lines[..b] + lines[b..];
    JoinedAppend(lines[..a], lines[a..b]);
    JoinedAppend(lines[..b], lines[b..]);
  }

  lemma OneLine(lines: seq<string>, i: nat)
    requires i < |lines|
    ensures Joined(lines[i..i + 1]) == lines[i]
  {
    assert lines[i..i + 1][1..] == [] && lines[i..i + 1][0] == lines[i];
  }

  lemma SameStarts(body: string, i: nat, f: Renaming)
    requires KeepsShape(f) && i <= |Lines(body)|
    ensures |Lines(Remapped(body, f))| == |Lines(body)| && Start(Lines(Remapped(body, f)), i) == Start(Lines(body), i)
  {
    hide Like, Alike, KeepsShape, Remapped, Lines, Recut, Joined;
    var out := Remapped(body, f);
    RemapChangesReferencesOnly(body, f);
    LikeAlike(body, out);
    LinesAlike(body, out);
    LinesJoin(body);
    JoinedRecut(Lines(body), out, i);
  }

  lemma PartCut(body: string, a: nat, b: nat, f: Renaming)
    requires KeepsShape(f) && a <= b <= |Lines(body)|
    ensures var (lines, out) := (Lines(body), Lines(Remapped(body, f)));
      |out| == |lines| && Start(lines, a) + |Joined(lines[a..b])| == Start(lines, b) <= |body| == |Remapped(body, f)| &&
      body[Start(lines, a)..Start(lines, b)] == Joined(lines[a..b]) &&
      Remapped(body, f)[Start(lines, a)..Start(lines, b)] == Joined(out[a..b])
  {
    hide Like, KeepsShape, Remapped, Lines, Joined, Start;
    SameStarts(body, a, f);
    SameStarts(body, b, f);
    LinesJoin(body);
    LinesJoin(Remapped(body, f));
    RemapChangesReferencesOnly(body, f);
    Cut(Lines(body), a, b);
    Cut(Lines(Remapped(body, f)), a, b);
  }

  lemma Within(s: string, d: nat, e: nat, k: int)
    requires d <= k && k + 31 <= e <= |s|
    ensures s[d..e][k - d..k - d + 31] == s[k..k + 31]
  {
    var t, u := s[d..e][k - d..k - d + 31], s[k..k + 31];
    forall j | 0 <= j < |t| ensures t[j] == u[j] { assert t[j] == s[d..e][k - d + j] == s[k + j]; }
  }

  lemma PartRenamed(body: string, out: string, d: nat, e: nat, f: Renaming, places: set<int>, k: int)
    requires d <= e <= |body| == |out| && Placed(body[d..e], out[d..e], f, places) && k - d in places
    ensures 0 <= k && k + 31 <= |body| && out[k..k + 31] == f(body[k..k + 31])
  {
    Within(body, d, e, k);
    Within(out, d, e, k);
  }

  lemma PartKept(body: string, out: string, d: nat, e: nat, f: Renaming, places: set<int>, x: int)
    requires d <= x < e <= |body| == |out| && Placed(body[d..e], out[d..e], f, places) && Free(places, x - d)
    ensures out[x] == body[x]
  {
    hide Free;
    assert body[d..e][x - d] == body[x] && out[d..e][x - d] == out[x];
  }

  lemma LinePart(body: string, i: nat, f: Renaming)
    requires KeepsShape(f) && FieldLine(Lines(body), i)
    ensures var (d, e) := (Start(Lines(body), i), Start(Lines(body), i + 1));
      d <= e <= |body| == |Remapped(body, f)| && Placed(body[d..e], Remapped(body, f)[d..e], f, LeftmostRefs(Lines(body)[i]))
  {
    hide KeepsShape, Remapped, Lines, Joined, Start, Placed, LeftmostRefs, Rule;
    FieldLineRenamed(body, i, f);
    PartCut(body, i, i + 1, f);
    OneLine(Lines(body), i);
    OneLine(Lines(Remapped(body, f)), i);
  }

  lemma StretchPart(body: string, a: nat, b: nat, f: Renaming)
    requires KeepsShape(f) && Stretch(Lines(body), a, b)
    ensures var (d, e) := (Start(Lines(body), a), Start(Lines(body), b));
      d <= e <= |body| == |Remapped(body, f)| && Placed(body[d..e], Remapped(body, f)[d..e], f, ProsePlaces(Joined(Lines(body)[a..b])))
  {
    hide KeepsShape, Remapped, Lines, Joined, Start, Placed, ProsePlaces, ProseFrom, Marker;
    StretchRenamed(body, a, b, f);
    PartCut(body, a, b, f);
  }

  lemma InLeftmost(s: string, k: int)
    ensures k in LeftmostRefs(s) <==> Leftmost(s, k)
  {
    hide RefAt;
    if Leftmost(s, k) { RefInside(s, k); }
  }

  lemma RefInside(s: string, k: int)
    requires RefAt(s, k)
    ensures 0 <= k < |s|
  {
  }

  lemma PlaceRenamed(body: string, k: int, f: Renaming)
    requires KeepsShape(f) && NotePlace(body, k)
    ensures |Remapped(body, f)| == |body| && 0 <= k && k + 31 <= |body| && Remapped(body, f)[k..k + 31] == f(body[k..k + 31])
  {
    hide KeepsShape, Remapped, Lines, Joined, Start, Placed, FieldLine, Stretch, Leftmost, ProsePlace, LeftmostRefs, ProsePlaces;
    var lines, out := Lines(body), Remapped(body, f);
    if i :| LinePlace(lines, i, k) {
      FieldLineAt(lines, i);
      LinePart(body, i, f);
      InLeftmost(lines[i], k - Start(lines, i));
      PartRenamed(body, out, Start(lines, i), Start(lines, i + 1), f, LeftmostRefs(lines[i]), k);
    } else {
      var a, b :| StretchPlace(lines, a, b, k);
      StretchAt(lines, a, b);
      StretchPart(body, a, b, f);
      InProsePlaces(Joined(lines[a..b]), k - Start(lines, a));
      PartRenamed(body, out, Start(lines, a), Start(lines, b), f, ProsePlaces(Joined(lines[a..b])), k);
    }
  }

  lemma FieldLineAt(lines: seq<string>, i: int)
    requires FieldLine(lines, i)
    ensures 1 <= i < |lines|
  {
  }

  lemma StretchAt(lines: seq<string>, a: int, b: int)
    requires Stretch(lines, a, b)
    ensures 0 <= a <= b <= |lines|
  {
  }

  // A position in the text is in one of its lines.
  lemma {:induction false} LineOf(lines: seq<string>, n: nat, x: nat) returns (i: nat)
    requires n <= |lines| && x < Start(lines, n)
    ensures i < n && Start(lines, i) <= x < Start(lines, i + 1)
    decreases n
  {
    hide Joined;
    if n == 0 {
      assert lines[..0] == [];
      Nothing();
    } else if Start(lines, n - 1) <= x {
      i := n - 1;
    } else {
      i := LineOf(lines, n - 1, x);
    }
  }

  lemma FreeLine(body: string, i: nat, x: int)
    requires FieldLine(Lines(body), i) && Free(NotePlacesOf(body), x)
    ensures Free(LeftmostRefs(Lines(body)[i]), x - Start(Lines(body), i))
  {
    hide Lines, Joined, Start, FieldLine, Leftmost, LeftmostRefs, Stretch, ProsePlace;
    FieldLineAt(Lines(body), i);
    var line, d := Lines(body)[i], Start(Lines(body), i);
    forall k | k in LeftmostRefs(line) ensures !(k <= x - d < k + 31) {
      InLeftmost(line, k);
      LineInside(body, i, k);
      assert LinePlace(Lines(body), i, k + d);
      assert k + d in NotePlacesOf(body);
    }
  }

  lemma LineInside(body: string, i: nat, k: int)
    requires i < |Lines(body)| && k in LeftmostRefs(Lines(body)[i])
    ensures 0 <= k + Start(Lines(body), i) < |body|
  {
    hide Lines, Joined, Leftmost, Start;
    LinesJoin(body);
    Cut(Lines(body), i, i + 1);
    OneLine(Lines(body), i);
  }

  lemma StretchInside(body: string, a: nat, b: nat, k: int)
    requires a <= b <= |Lines(body)| && k in ProsePlaces(Joined(Lines(body)[a..b]))
    ensures 0 <= k + Start(Lines(body), a) < |body|
  {
    hide Lines, Joined, ProsePlace, Start;
    LinesJoin(body);
    Cut(Lines(body), a, b);
  }

  lemma FreeStretch(body: string, a: nat, b: nat, x: int)
    requires Stretch(Lines(body), a, b) && Free(NotePlacesOf(body), x)
    ensures Free(ProsePlaces(Joined(Lines(body)[a..b])), x - Start(Lines(body), a))
  {
    hide Lines, Joined, Start, FieldLine, Leftmost, ProsePlaces, Stretch, ProsePlace;
    StretchAt(Lines(body), a, b);
    var text, d := Joined(Lines(body)[a..b]), Start(Lines(body), a);
    forall k | k in ProsePlaces(text) ensures !(k <= x - d < k + 31) {
      InProsePlaces(text, k);
      StretchInside(body, a, b, k);
      assert StretchPlace(Lines(body), a, b, k + d);
      assert k + d in NotePlacesOf(body);
    }
  }

  lemma StartsGrow(lines: seq<string>, i: nat, j: nat)
    requires i <= j <= |lines|
    ensures Start(lines, i) <= Start(lines, j)
  {
    hide Joined, Start;
    Cut(lines, i, j);
  }

  lemma OtherKept(body: string, x: nat, f: Renaming)
    requires KeepsShape(f) && x < |body| && Free(NotePlacesOf(body), x)
    ensures |Remapped(body, f)| == |body| && Remapped(body, f)[x] == body[x]
  {
    hide KeepsShape, Remapped, Lines, Joined, Start, Placed, FieldLine, Stretch, LeftmostRefs, ProsePlaces, NotePlacesOf, Free;
    var lines, out := Lines(body), Remapped(body, f);
    LinesJoin(body);
    PartCut(body, 0, |lines|, f);
    WholeStart(lines);
    var i := LineOf(lines, |lines|, x);
    if FieldLine(lines, i) {
      LinePart(body, i, f);
      FreeLine(body, i, x);
      PartKept(body, out, Start(lines, i), Start(lines, i + 1), f, LeftmostRefs(lines[i]), x);
    } else if a, b :| Stretch(lines, a, b) && a <= i < b {
      StretchAt(lines, a, b);
      StretchPart(body, a, b, f);
      FreeStretch(body, a, b, x);
      StartsGrow(lines, a, i);
      StartsGrow(lines, i + 1, b);
      PartKept(body, out, Start(lines, a), Start(lines, b), f, ProsePlaces(Joined(lines[a..b])), x);
    } else {
      LineKinds(body, i, f);
      PartCut(body, i, i + 1, f);
      OneLine(lines, i);
      OneLine(Lines(out), i);
      assert body[Start(lines, i)..Start(lines, i + 1)][x - Start(lines, i)] == body[x];
      assert out[Start(lines, i)..Start(lines, i + 1)][x - Start(lines, i)] == out[x];
    }
  }

  lemma WholeStart(lines: seq<string>)
    ensures Start(lines, |lines|) == |Joined(lines)|
  {
    hide Joined;
    assert lines[..|lines|] == lines;
  }

  // In a renamed note the identifiers at the note's places are the new ones, and nothing else has changed.
  lemma RemapExactly(body: string, f: Renaming)
    requires KeepsShape(f)
    ensures Placed(body, Remapped(body, f), f, NotePlacesOf(body))
  {
    hide KeepsShape, Remapped, NotePlace, Free, Like;
    RemapChangesReferencesOnly(body, f);
    forall k | k in NotePlacesOf(body)
      ensures 0 <= k && k + 31 <= |body| && Remapped(body, f)[k..k + 31] == f(body[k..k + 31])
    {
      PlaceRenamed(body, k, f);
    }
    forall x | 0 <= x < |body| && Free(NotePlacesOf(body), x) ensures Remapped(body, f)[x] == body[x] {
      OtherKept(body, x, f);
    }
  }
}

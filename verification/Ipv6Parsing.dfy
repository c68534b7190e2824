/** Both IPv6 parsers read every textual form of an address to its bytes. */
module Ipv6Parsing {
  import opened Common
  import opened Ipv6Text

  // ----- Splitting undoes joining -----

  ghost predicate Solid(parts: seq<string>, sep: char) {
    forall i :: 0 <= i < |parts| ==> |parts[i]| > 0 && sep !in parts[i]
  }

  lemma {:induction false} SplitPart(s: string, sep: char, rest: string)
    requires sep !in s
    ensures SplitOn(s + [sep] + rest, sep) == [s] + SplitOn(rest, sep)
    ensures SplitOn(s, sep) == [s]
  {
    if |s| > 0 {
      SplitPart(s[1..], sep, rest);
      assert (s + [sep] + rest)[1..] == s[1..] + [sep] + rest;
      assert [s[0]] + s[1..] == s;
    } else {
      assert (s + [sep] + rest)[1..] == rest;
    }
  }

  lemma {:induction false} SplitJoin(parts: seq<string>, sep: char)
    requires |parts| > 0 && Solid(parts, sep)
    ensures SplitOn(Join(parts, sep), sep) == parts
  {
    SplitPart(parts[0], sep, "");
    if |parts| > 1 {
      assert Solid(parts[1..], sep);
      SplitJoin(parts[1..], sep);
      SplitPart(parts[0], sep, Join(parts[1..], sep));
    }
  }

  /** A joined text neither starts nor ends with a colon and holds no `::`. */
  lemma {:induction false} JoinHasNoDouble(parts: seq<string>)
    requires Solid(parts, ':')
    ensures var s := Join(parts, ':');
            && (forall i: nat :: !DoubleAt(s, i))
            && (|parts| > 0 ==> |s| > 0 && s[0] != ':' && Last(s) != ':')
  {
    if |parts| > 1 {
      assert Solid(parts[1..], ':');
      JoinHasNoDouble(parts[1..]);
      var p, rest := parts[0], Join(parts[1..], ':');
      var s := p + [':'] + rest;
      assert s == Join(parts, ':');
      forall i: nat ensures !DoubleAt(s, i) {
        if i > |p| { assert DoubleAt(s, i) == DoubleAt(rest, i - |p| - 1); }
      }
      assert Last(s) == Last(rest);
    } else if |parts| == 1 {
      assert Join(parts, ':') == parts[0];
    }
  }

  lemma HeadOfJoined(parts: seq<string>)
    requires Solid(parts, ':')
    ensures Head(Join(parts, ':')) == Join(parts, ':') && Tail(Join(parts, ':')) == None
  {
    JoinHasNoDouble(parts);
  }

  lemma HeadAndTail(front: seq<string>, back: seq<string>, s: string)
    requires Solid(front, ':') && Solid(back, ':')
    requires s == Join(front, ':') + "::" + Join(back, ':')
    ensures Head(s) == Join(front, ':') && Tail(s) == Some(Join(back, ':'))
  {
    var f, b := Join(front, ':'), Join(back, ':');
    JoinHasNoDouble(front);
    HeadOfJoined(back);
    assert DoubleAt(s, |f|);
    assert forall i: nat :: i + 1 < |f| ==> DoubleAt(s, i) == DoubleAt(f, i);
    assert |f| > 0 ==> !DoubleAt(s, |f| - 1);
    assert FirstDouble(s) == Some(|f|);
    assert s[..|f|] == f && s[|f| + 2..] == b;
  }

  // ----- Reading pieces -----

  /** `read` reads the groups and the quad of a form correctly. */
  ghost predicate Reads(read: Reader, gs: seq<Group>, quad: Option<seq<nat>>)
    requires LegalGroups(gs) && (quad.Some? ==> LegalQuad(quad.value))
  {
    && (forall i :: 0 <= i < |gs| ==> read(GroupText(gs[i])) == Some(WordBytes(WordOf(gs[i]))))
    && (quad.Some? ==> read(QuadText(quad.value)) == Some(quad.value))
  }

  lemma {:induction false} GatheredGroups(gs: seq<Group>, read: Reader)
    requires LegalGroups(gs) && Reads(read, gs, None)
    ensures Gathered(Texts(gs, None), read) == Some(GroupBytes(gs))
    decreases |gs|
  {
    var texts := Texts(gs, None);
    if |gs| > 0 {
      var before := gs[..|gs| - 1];
      assert Reads(read, before, None);
      GatheredGroups(before, read);
      assert texts[..|texts| - 1] == Texts(before, None);
      assert Last(texts) == GroupText(Last(gs));
    } else {
      assert texts == [];
    }
  }

  lemma GatheredSide(gs: seq<Group>, quad: Option<seq<nat>>, read: Reader)
    requires LegalGroups(gs) && (quad.Some? ==> LegalQuad(quad.value)) && Reads(read, gs, quad)
    ensures Gathered(Texts(gs, quad), read) == Some(SideBytes(gs, quad))
  {
    GatheredGroups(gs, read);
    var texts := Texts(gs, quad);
    if quad.Some? {
      assert texts[..|texts| - 1] == Texts(gs, None);
    } else {
      assert texts == Texts(gs, None);
      assert GroupBytes(gs) + [] == GroupBytes(gs);
    }
  }

  lemma GroupTextIsPlain(g: Group)
    requires LegalGroup(g)
    ensures IsHex(GroupText(g)) && ':' !in GroupText(g) && '.' !in GroupText(g)
  {
  }

  lemma OctetIsDigits(n: nat)
    requires n < 256
    ensures 1 <= |OctetText(n)| <= 3 && IsDigits(OctetText(n)) && '.' !in OctetText(n) && ':' !in OctetText(n)
  {
  }

  lemma DecimalPush(s: string, n: nat)
    requires IsDigits(s) && n < 10
    ensures IsDigits(s + [DecimalDigit(n)]) && ParseDecimal(s + [DecimalDigit(n)]) == 10 * ParseDecimal(s) + n
  {
    assert (s + [DecimalDigit(n)])[..|s|] == s;
  }

  lemma ReadsTwo(a: nat, b: nat)
    requires a < 10 && b < 10
    ensures IsDigits([DecimalDigit(a), DecimalDigit(b)]) && ParseDecimal([DecimalDigit(a), DecimalDigit(b)]) == 10 * a + b
    ensures IsDigits([DecimalDigit(a)]) && ParseDecimal([DecimalDigit(a)]) == a
  {
    DecimalPush("", a);
    assert "" + [DecimalDigit(a)] == [DecimalDigit(a)];
    DecimalPush([DecimalDigit(a)], b);
    assert [DecimalDigit(a)] + [DecimalDigit(b)] == [DecimalDigit(a), DecimalDigit(b)];
  }

  lemma ReadsThree(a: nat, b: nat, c: nat)
    requires a < 10 && b < 10 && c < 10
    ensures var s := [DecimalDigit(a), DecimalDigit(b), DecimalDigit(c)]; IsDigits(s) && ParseDecimal(s) == 100 * a + 10 * b + c
  {
    ReadsTwo(a, b);
    DecimalPush([DecimalDigit(a), DecimalDigit(b)], c);
    assert [DecimalDigit(a), DecimalDigit(b)] + [DecimalDigit(c)] == [DecimalDigit(a), DecimalDigit(b), DecimalDigit(c)];
  }

  lemma OctetReads(n: nat)
    requires n < 256 && IsDigits(OctetText(n))
    ensures ParseDecimal(OctetText(n)) == n
  {
    if n < 10 {
      ReadsTwo(n, 0);
    } else if n < 100 {
      ReadsTwo(n / 10, n % 10);
    } else {
      ReadsThree(n / 100, n / 10 % 10, n % 10);
    }
  }

  lemma QuadIsPlain(q: seq<nat>)
    requires LegalQuad(q)
    ensures Solid(QuadParts(q), '.')
    ensures SplitOn(QuadText(q), '.') == QuadParts(q)
    ensures '.' in QuadText(q) && ':' !in QuadText(q) && |QuadText(q)| > 0
  {
    forall i | 0 <= i < 4 ensures |QuadParts(q)[i]| > 0 && '.' !in QuadParts(q)[i] && ':' !in QuadParts(q)[i] {
      OctetIsDigits(q[i]);
    }
    SplitJoin(QuadParts(q), '.');
    JoinOnly(QuadParts(q), '.');
  }

  /** Joining brings in nothing but the separator. */
  lemma {:induction false} JoinOnly(parts: seq<string>, sep: char)
    ensures forall c :: c in Join(parts, sep) ==> c == sep || exists i :: 0 <= i < |parts| && c in parts[i]
    ensures |parts| > 1 ==> sep in Join(parts, sep)
  {
    if |parts| > 1 {
      JoinOnly(parts[1..], sep);
      forall c | c in Join(parts, sep) ensures c == sep || exists i :: 0 <= i < |parts| && c in parts[i] {
        if c in Join(parts[1..], sep) && c != sep {
          var i :| 0 <= i < |parts[1..]| && c in parts[1..][i];
          assert c in parts[i + 1];
        }
      }
    }
  }

  lemma TextsAreSolid(gs: seq<Group>, quad: Option<seq<nat>>)
    requires LegalGroups(gs) && (quad.Some? ==> LegalQuad(quad.value))
    ensures Solid(Texts(gs, quad), ':')
  {
    forall i | 0 <= i < |gs| ensures |GroupText(gs[i])| > 0 && ':' !in GroupText(gs[i]) { GroupTextIsPlain(gs[i]); }
    if quad.Some? { QuadIsPlain(quad.value); }
  }

  lemma ExpandedSide(gs: seq<Group>, quad: Option<seq<nat>>, read: Reader)
    requires LegalGroups(gs) && (quad.Some? ==> LegalQuad(quad.value)) && Reads(read, gs, quad)
    ensures Expanded(Join(Texts(gs, quad), ':'), read) == Some(SideBytes(gs, quad))
  {
    TextsAreSolid(gs, quad);
    GatheredSide(gs, quad, read);
    if |Texts(gs, quad)| > 0 {
      JoinHasNoDouble(Texts(gs, quad));
      SplitJoin(Texts(gs, quad), ':');
    }
  }

  lemma AssembledParts(s: string, read: Reader, f: string, tail: Option<string>, front: seq<nat>, back: seq<nat>)
    requires Head(s) == f && Tail(s) == tail && Expanded(f, read) == Some(front)
    requires if tail.Some? then Expanded(tail.value, read) == Some(back) && |front| + |back| <= 16 else back == [] && |front| == 16
    ensures Assembled(s, read) == Some(front + Zeros(16 - |front| - |back|) + back)
  {
  }

  /** A parser that reads the pieces of a form reads the form. */
  lemma AssembledReads(sp: Spelling, read: Reader)
    requires Legal(sp) && Reads(read, sp.front, None) && Reads(read, sp.back, None) && Reads(read, [], sp.quad)
    ensures Assembled(Text(sp), read) == Some(Bytes(sp))
  {
    if sp.gap { AssembledWithGap(sp, read); } else { AssembledInFull(sp, read); }
  }

  lemma AssembledWithGap(sp: Spelling, read: Reader)
    requires Legal(sp) && sp.gap && Reads(read, sp.front, None) && Reads(read, sp.back, sp.quad)
    ensures Assembled(Text(sp), read) == Some(Bytes(sp))
  {
    var fs, bs := Texts(sp.front, None), Texts(sp.back, sp.quad);
    TextsAreSolid(sp.front, None);
    TextsAreSolid(sp.back, sp.quad);
    HeadAndTail(fs, bs, Text(sp));
    ExpandedSide(sp.front, None, read);
    ExpandedSide(sp.back, sp.quad, read);
    ConcatEmpty(GroupBytes(sp.front));
    var back := SideBytes(sp.back, sp.quad);
    BytesWithGap(sp, back);
    AssembledParts(Text(sp), read, Join(fs, ':'), Some(Join(bs, ':')), GroupBytes(sp.front), back);
  }

  lemma BytesWithGap(sp: Spelling, back: seq<nat>)
    requires Legal(sp) && sp.gap && back == SideBytes(sp.back, sp.quad)
    ensures |GroupBytes(sp.front)| + |back| <= 16
    ensures Bytes(sp) == GroupBytes(sp.front) + Zeros(16 - |GroupBytes(sp.front)| - |back|) + back
  {
  }

  lemma AssembledInFull(sp: Spelling, read: Reader)
    requires Legal(sp) && !sp.gap && Reads(read, sp.front, sp.quad)
    ensures Assembled(Text(sp), read) == Some(Bytes(sp))
  {
    TextsAreSolid(sp.front, sp.quad);
    HeadOfJoined(Texts(sp.front, sp.quad));
    ExpandedSide(sp.front, sp.quad, read);
    var b := SideBytes(sp.front, sp.quad);
    AssembledParts(Text(sp), read, Text(sp), None, b, []);
    assert b + Zeros(0) + [] == b;
  }

  // ----- What the readers make of them -----

  lemma {:induction false} HexReads(g: Group)
    requires (forall i :: 0 <= i < |g| ==> g[i].value < 16) && IsHex(GroupText(g))
    ensures ParseHex(GroupText(g)) == WordOf(g)
  {
    if |g| > 0 {
      var s := GroupText(g);
      assert s[..|s| - 1] == GroupText(g[..|g| - 1]);
      assert HexValue(CharOf(Last(g))) == Some(Last(g).value);
      HexReads(g[..|g| - 1]);
    }
  }

  lemma LooseReadsGroup(g: Group)
    requires LegalGroup(g)
    ensures LoosePiece(GroupText(g)) == Some(WordBytes(WordOf(g)))
  {
    GroupTextIsPlain(g);
    HexReads(g);
  }

  lemma StrictReadsGroup(g: Group)
    requires LegalGroup(g) && forall i :: 0 <= i < |g| ==> !g[i].upper
    ensures StrictPiece(GroupText(g)) == Some(WordBytes(WordOf(g)))
  {
    GroupTextIsPlain(g);
    HexReads(g);
    LowerDigits(g);
  }

  lemma LowerDigits(g: Group)
    requires LegalGroup(g) && forall i :: 0 <= i < |g| ==> !g[i].upper
    ensures LowerHex(GroupText(g))
  {
    forall i | 0 <= i < |g| ensures HexValue(CharOf(g[i])).Some? && Lower(CharOf(g[i])) == CharOf(g[i]) {}
  }

  lemma BothReadQuad(q: seq<nat>)
    requires LegalQuad(q)
    ensures StrictPiece(QuadText(q)) == Some(q) && LoosePiece(QuadText(q)) == Some(q) && ParseIPv4(QuadText(q)) == Some(q)
  {
    QuadIsPlain(q);
    var parts := QuadParts(q);
    forall i | 0 <= i < 4 ensures IsDigits(parts[i]) && StrictOctet(parts[i]) == Some(q[i]) && ParseDecimal(parts[i]) == q[i] {
      OctetIsDigits(q[i]);
      OctetReads(q[i]);
    }
    assert seq(4, i requires 0 <= i < 4 => StrictOctet(parts[i]).value) == q;
    assert seq(|parts|, i requires 0 <= i < |parts| => ParseDecimal(parts[i])) == q;
  }

  // ----- Case -----

  function Lowered(g: Group): Group { seq(|g|, i requires 0 <= i < |g| => Digit(g[i].value, false)) }

  function LoweredAll(gs: seq<Group>): seq<Group> { seq(|gs|, i requires 0 <= i < |gs| => Lowered(gs[i])) }

  function LowerSpelling(sp: Spelling): Spelling { sp.(front := LoweredAll(sp.front), back := LoweredAll(sp.back)) }

  lemma {:induction false} SameWord(g: Group)
    ensures WordOf(Lowered(g)) == WordOf(g)
  {
    if |g| > 0 {
      assert Lowered(g)[..|g| - 1] == Lowered(g[..|g| - 1]);
      SameWord(g[..|g| - 1]);
    }
  }

  lemma {:induction false} SameGroupBytes(gs: seq<Group>)
    ensures GroupBytes(LoweredAll(gs)) == GroupBytes(gs)
  {
    if |gs| > 0 {
      assert LoweredAll(gs)[..|gs| - 1] == LoweredAll(gs[..|gs| - 1]);
      SameGroupBytes(gs[..|gs| - 1]);
      SameWord(Last(gs));
    }
  }

  function LowerEach(parts: seq<string>): seq<string> { seq(|parts|, i requires 0 <= i < |parts| => LowerAll(parts[i])) }

  lemma {:induction false} LowerJoin(parts: seq<string>, sep: char)
    requires Lower(sep) == sep
    ensures LowerAll(Join(parts, sep)) == Join(LowerEach(parts), sep)
  {
    if |parts| > 1 {
      LowerJoin(parts[1..], sep);
      assert LowerEach(parts)[1..] == LowerEach(parts[1..]);
      assert LowerAll(parts[0] + [sep] + Join(parts[1..], sep)) == LowerAll(parts[0]) + [sep] + LowerAll(Join(parts[1..], sep));
    }
  }

  lemma LowerTexts(gs: seq<Group>, quad: Option<seq<nat>>)
    requires LegalGroups(gs) && (quad.Some? ==> LegalQuad(quad.value))
    ensures LegalGroups(LoweredAll(gs))
    ensures LowerEach(Texts(gs, quad)) == Texts(LoweredAll(gs), quad)
  {
    forall i | 0 <= i < |gs| ensures LowerAll(GroupText(gs[i])) == GroupText(Lowered(gs[i])) {
      assert forall j :: 0 <= j < |gs[i]| ==> Lower(CharOf(gs[i][j])) == CharOf(Digit(gs[i][j].value, false));
    }
    if quad.Some? { LowerQuad(quad.value); }
  }

  lemma LowerQuad(q: seq<nat>)
    requires LegalQuad(q)
    ensures LowerAll(QuadText(q)) == QuadText(q)
  {
    LowerJoin(QuadParts(q), '.');
    forall i | 0 <= i < 4 ensures LowerAll(OctetText(q[i])) == OctetText(q[i]) { OctetIsDigits(q[i]); }
    assert LowerEach(QuadParts(q)) == QuadParts(q);
  }

  lemma LowerSide(gs: seq<Group>, quad: Option<seq<nat>>)
    requires LegalGroups(gs) && (quad.Some? ==> LegalQuad(quad.value))
    ensures LegalGroups(LoweredAll(gs))
    ensures LowerAll(Join(Texts(gs, quad), ':')) == Join(Texts(LoweredAll(gs), quad), ':')
  {
    LowerTexts(gs, quad);
    LowerJoin(Texts(gs, quad), ':');
  }

  lemma LowerConcat(f: string, b: string)
    ensures LowerAll(f + "::" + b) == LowerAll(f) + "::" + LowerAll(b)
  {
  }

  lemma LoweredIsLegal(gs: seq<Group>)
    requires LegalGroups(gs)
    ensures LegalGroups(LoweredAll(gs)) && |LoweredAll(gs)| == |gs|
  {
  }

  lemma LowerIsLegal(sp: Spelling)
    requires Legal(sp)
    ensures Legal(LowerSpelling(sp))
  {
    LoweredIsLegal(sp.front);
    LoweredIsLegal(sp.back);
    assert sp.back == [] ==> LoweredAll(sp.back) == [];
    assert Count(LowerSpelling(sp)) == Count(sp);
  }

  lemma LowerKeepsBytes(sp: Spelling, low: Spelling)
    requires Legal(sp) && Legal(low) && low == LowerSpelling(sp)
    ensures Bytes(low) == Bytes(sp)
  {
    SameGroupBytes(sp.front);
    SameGroupBytes(sp.back);
  }

  /** Changing the case of a form changes neither its legality nor its bytes. */
  lemma LowerText(sp: Spelling)
    requires Legal(sp)
    ensures Legal(LowerSpelling(sp)) && Bytes(LowerSpelling(sp)) == Bytes(sp)
    ensures Text(LowerSpelling(sp)) == LowerAll(Text(sp))
  {
    LowerIsLegal(sp);
    LowerKeepsBytes(sp, LowerSpelling(sp));
    if sp.gap {
      LowerSide(sp.front, None);
      LowerSide(sp.back, sp.quad);
      LowerConcat(Join(Texts(sp.front, None), ':'), Join(Texts(sp.back, sp.quad), ':'));
    } else {
      LowerSide(sp.front, sp.quad);
    }
  }

  // ----- Blanks and brackets around an address -----

  ghost predicate Blanks(s: string) { forall i :: 0 <= i < |s| ==> Blank(s[i]) }

  /** Text the parsers see through: blanks at both ends, and a bracket on either side or not. */
  ghost predicate Dresses(value: string, s: string) {
    exists before, after, open, close :: Dressed(value, s, before, after, open, close)
  }

  ghost predicate Dressed(value: string, s: string, before: string, after: string, open: bool, close: bool) {
    Blanks(before) && Blanks(after) && value == before + Bracketed(s, open, close) + after
  }

  function Bracketed(s: string, open: bool, close: bool): string {
    (if open then "[" else "") + s + (if close then "]" else "")
  }

  ghost predicate Clean(s: string) {
    |s| > 0 && forall i :: 0 <= i < |s| ==> !Blank(s[i]) && s[i] != '[' && s[i] != ']'
  }

  lemma {:induction false} TrimsStart(before: string, s: string)
    requires Blanks(before) && |s| > 0 && !Blank(s[0])
    ensures TrimStart(before + s) == s
  {
    if |before| > 0 {
      TrimsStart(before[1..], s);
      assert (before + s)[1..] == before[1..] + s;
    } else {
      assert before + s == s;
    }
  }

  lemma {:induction false} TrimsEnd(s: string, after: string)
    requires Blanks(after) && |s| > 0 && !Blank(Last(s))
    ensures TrimEnd(s + after) == s
  {
    if |after| > 0 {
      TrimsEnd(s, after[..|after| - 1]);
      assert (s + after)[..|s + after| - 1] == s + after[..|after| - 1];
    } else {
      assert s + after == s;
    }
  }

  lemma BareUndresses(value: string, s: string)
    requires Clean(s) && Dresses(value, s)
    ensures Bare(value) == s
  {
    var before, after, open, close :| Dressed(value, s, before, after, open, close);
    Undress(value, s, before, after, open, close);
  }

  lemma Undress(value: string, s: string, before: string, after: string, open: bool, close: bool)
    requires Clean(s) && Dressed(value, s, before, after, open, close)
    ensures Bare(value) == s
  {
    var b := Bracketed(s, open, close);
    BracketedEnds(s, open, close);
    assert value == before + (b + after);
    TrimsStart(before, b + after);
    TrimsEnd(b, after);
    BareBrackets(s, open, close);
  }

  lemma BracketedEnds(s: string, open: bool, close: bool)
    requires Clean(s)
    ensures var b := Bracketed(s, open, close); |b| > 0 && !Blank(b[0]) && !Blank(Last(b))
  {
  }

  lemma BareBrackets(s: string, open: bool, close: bool)
    requires Clean(s)
    ensures Unbracket(Bracketed(s, open, close)) == s
  {
    var t := s + (if close then "]" else "");
    assert open ==> Bracketed(s, open, close)[1..] == t;
    assert close ==> t[..|t| - 1] == s;
  }

  lemma DressesItself(s: string)
    ensures Dresses(s, s)
  {
    assert s == "" + Bracketed(s, false, false) + "";
    assert Dressed(s, s, "", "", false, false);
  }

  lemma SideIsClean(gs: seq<Group>, quad: Option<seq<nat>>)
    requires LegalGroups(gs) && (quad.Some? ==> LegalQuad(quad.value))
    ensures forall c :: c in Join(Texts(gs, quad), ':') ==> !Blank(c) && c != '[' && c != ']'
    ensures |Texts(gs, quad)| > 1 ==> ':' in Join(Texts(gs, quad), ':')
  {
    var texts := Texts(gs, quad);
    JoinOnly(texts, ':');
    forall i | 0 <= i < |texts| ensures forall c :: c in texts[i] ==> !Blank(c) && c != '[' && c != ']' {
      if i < |gs| { assert texts[i] == GroupText(gs[i]); } else { QuadIsClean(quad.value); }
    }
  }

  lemma DigitsAreClean()
    ensures forall c: char :: '0' <= c <= '9' || c == '.' ==> !Blank(c) && c != '[' && c != ']' && c != ':'
  {
  }

  lemma QuadIsClean(q: seq<nat>)
    requires LegalQuad(q)
    ensures forall c :: c in QuadText(q) ==> !Blank(c) && c != '[' && c != ']' && c != ':'
    ensures Clean(QuadText(q))
  {
    var parts := QuadParts(q);
    JoinOnly(parts, '.');
    QuadIsPlain(q);
    forall i | 0 <= i < 4 ensures forall c :: c in parts[i] ==> '0' <= c <= '9' {
      OctetIsDigits(q[i]);
      assert parts[i] == OctetText(q[i]);
    }
    forall c | c in QuadText(q) ensures '0' <= c <= '9' || c == '.' {
      if c != '.' {
        var i :| 0 <= i < |parts| && c in parts[i];
      }
    }
    DigitsAreClean();
    assert forall i :: 0 <= i < |QuadText(q)| ==> QuadText(q)[i] in QuadText(q);
  }

  lemma TextIsClean(sp: Spelling)
    requires Legal(sp)
    ensures Clean(Text(sp)) && ':' in Text(sp)
  {
    if sp.gap {
      SideIsClean(sp.front, None);
      SideIsClean(sp.back, sp.quad);
      var f, b := Join(Texts(sp.front, None), ':'), Join(Texts(sp.back, sp.quad), ':');
      assert Text(sp)[|f|] == ':';
      assert forall c :: c in Text(sp) ==> c in f || c == ':' || c in b;
    } else {
      SideIsClean(sp.front, sp.quad);
    }
    assert forall i :: 0 <= i < |Text(sp)| ==> Text(sp)[i] in Text(sp);
  }

  // ----- The parsers -----

  /** isIP(host) == 6, for texts without a zone. */
  ghost predicate IsV6(host: string) { exists sp :: Legal(sp) && Text(sp) == host }

  /** isIP(host) == 4. */
  ghost predicate IsV4(host: string) { exists q :: LegalQuad(q) && QuadText(q) == host }

  /** parseIPv6Bytes as a function of the text. */
  ghost function AgentBytes(value: string): Option<seq<nat>> {
    if IsV6(Bare(value)) then Assembled(Bare(value), LoosePiece) else None
  }

  method ParseIPv6Bytes(value: string, family: nat) returns (r: Option<seq<nat>>)
    requires family == 6 <==> IsV6(Bare(value))
    ensures r == AgentBytes(value)
  {
    var host := Bare(value);
    if family != 6 { return None; }
    r := Assemble(host, LoosePiece);
  }

  lemma StrictReads(gs: seq<Group>, quad: Option<seq<nat>>)
    requires LegalGroups(gs) && (quad.Some? ==> LegalQuad(quad.value))
    ensures LegalGroups(LoweredAll(gs)) && Reads(StrictPiece, LoweredAll(gs), quad)
  {
    forall i | 0 <= i < |gs|
      ensures StrictPiece(GroupText(Lowered(gs[i]))) == Some(WordBytes(WordOf(Lowered(gs[i]))))
    {
      StrictReadsGroup(Lowered(gs[i]));
    }
    if quad.Some? { BothReadQuad(quad.value); }
  }

  lemma LooseReads(gs: seq<Group>, quad: Option<seq<nat>>)
    requires LegalGroups(gs) && (quad.Some? ==> LegalQuad(quad.value))
    ensures Reads(LoosePiece, gs, quad)
  {
    forall i | 0 <= i < |gs| ensures LoosePiece(GroupText(gs[i])) == Some(WordBytes(WordOf(gs[i]))) {
      LooseReadsGroup(gs[i]);
    }
    if quad.Some? { BothReadQuad(quad.value); }
  }

  /** The helper's parser reads every form, dressed in blanks and brackets or not. */
  lemma HelperReads(value: string, sp: Spelling)
    requires Legal(sp) && Dresses(value, Text(sp))
    ensures HelperBytes(value) == Some(Bytes(sp))
  {
    TextIsClean(sp);
    BareUndresses(value, Text(sp));
    LowerText(sp);
    var low := LowerSpelling(sp);
    TextIsClean(low);
    StrictReads(sp.front, None);
    StrictReads(sp.back, None);
    StrictReads([], sp.quad);
    AssembledReads(low, StrictPiece);
  }

  /** And so does the agent's. */
  lemma AgentReads(value: string, sp: Spelling)
    requires Legal(sp) && Dresses(value, Text(sp))
    ensures AgentBytes(value) == Some(Bytes(sp))
  {
    TextIsClean(sp);
    BareUndresses(value, Text(sp));
    LooseReads(sp.front, None);
    LooseReads(sp.back, None);
    LooseReads([], sp.quad);
    AssembledReads(sp, LoosePiece);
  }

  // ----- Every address has a form -----

  function Nibbles(hi: nat, lo: nat): Group
    requires hi < 256 && lo < 256
  {
    [Digit(hi / 16, false), Digit(hi % 16, false), Digit(lo / 16, false), Digit(lo % 16, false)]
  }

  lemma WordPush(g: Group, d: Digit)
    ensures WordOf(g + [d]) == 16 * WordOf(g) + d.value
  {
    Snoc(g, d);
  }

  lemma WordOfTwo(a: Digit, b: Digit)
    ensures WordOf([a, b]) == 16 * a.value + b.value
  {
    WordPush([], a);
    WordPush([a], b);
    assert [] + [a] == [a] && [a] + [b] == [a, b];
  }

  lemma WordOfFour(a: Digit, b: Digit, c: Digit, d: Digit)
    ensures WordOf([a, b, c, d]) == 4096 * a.value + 256 * b.value + 16 * c.value + d.value
  {
    WordOfTwo(a, b);
    WordPush([a, b], c);
    assert [a, b] + [c] == [a, b, c];
    WordPush([a, b, c], d);
    assert [a, b, c] + [d] == [a, b, c, d];
  }

  lemma NibblesSpell(hi: nat, lo: nat)
    requires hi < 256 && lo < 256
    ensures LegalGroup(Nibbles(hi, lo)) && WordBytes(WordOf(Nibbles(hi, lo))) == [hi, lo]
  {
    var g := Nibbles(hi, lo);
    WordOfFour(g[0], g[1], g[2], g[3]);
    assert WordOf(g) == 256 * hi + lo;
  }

  /** The long form of some bytes, four digits a group. */
  function LongGroups(bytes: seq<nat>): seq<Group>
    requires |bytes| % 2 == 0 && forall i :: 0 <= i < |bytes| ==> bytes[i] < 256
  {
    if |bytes| == 0 then [] else LongGroups(bytes[..|bytes| - 2]) + [Nibbles(bytes[|bytes| - 2], bytes[|bytes| - 1])]
  }

  lemma {:induction false} LongGroupsSpell(bytes: seq<nat>)
    requires |bytes| % 2 == 0 && forall i :: 0 <= i < |bytes| ==> bytes[i] < 256
    ensures LegalGroups(LongGroups(bytes)) && |LongGroups(bytes)| == |bytes| / 2
    ensures GroupBytes(LongGroups(bytes)) == bytes
  {
    if |bytes| > 0 {
      var n := |bytes|;
      var before, g := bytes[..n - 2], Nibbles(bytes[n - 2], bytes[n - 1]);
      LongGroupsSpell(before);
      NibblesSpell(bytes[n - 2], bytes[n - 1]);
      LongGroupsPush(before, LongGroups(before), g, bytes[n - 2], bytes[n - 1]);
      LastTwo(bytes);
      assert LongGroups(bytes) == LongGroups(before) + [g];
    }
  }

  lemma LastTwo(bytes: seq<nat>)
    requires |bytes| >= 2
    ensures bytes == bytes[..|bytes| - 2] + [bytes[|bytes| - 2], bytes[|bytes| - 1]]
  {
  }

  lemma LongGroupsPush(before: seq<nat>, gs: seq<Group>, g: Group, hi: nat, lo: nat)
    requires LegalGroups(gs) && GroupBytes(gs) == before && LegalGroup(g) && WordBytes(WordOf(g)) == [hi, lo]
    ensures LegalGroups(gs + [g]) && GroupBytes(gs + [g]) == before + [hi, lo]
  {
    PushGroup(gs, g);
  }

  lemma PushGroup(gs: seq<Group>, g: Group)
    ensures GroupBytes(gs + [g]) == GroupBytes(gs) + WordBytes(WordOf(g))
  {
    assert (gs + [g])[..|gs|] == gs;
  }

  lemma EveryAddressIsSpelled(bytes: seq<nat>)
    requires |bytes| == 16 && forall i :: 0 <= i < 16 ==> bytes[i] < 256
    ensures exists sp :: Legal(sp) && Bytes(sp) == bytes
  {
    LongGroupsSpell(bytes);
    var sp := Spelling(LongGroups(bytes), false, [], None);
    assert GroupBytes(sp.front) + [] == bytes;
    assert Legal(sp) && Bytes(sp) == bytes;
  }
}

/**
 * The two IPv6 parsers, parseIPv6 of the helper (xray-apply.ts) and parseIPv6Bytes of the agent
 * (public-address.ts), and the textual forms of section 2.2 of RFC 4291 that they read.
 */
module Ipv6Text {
  import opened Common

  // ----- String operations the parsers use -----

  /** The characters String.trim takes off. */
  predicate Blank(c: char) {
    || '\t' <= c <= '\r' || c == ' ' || c == '\U{A0}' || c == '\U{1680}' || '\U{2000}' <= c <= '\U{200A}'
    || c == '\U{2028}' || c == '\U{2029}' || c == '\U{202F}' || c == '\U{205F}' || c == '\U{3000}' || c == '\U{FEFF}'
  }

  function TrimStart(s: string): string { if |s| > 0 && Blank(s[0]) then TrimStart(s[1..]) else s }

  function TrimEnd(s: string): string { if |s| > 0 && Blank(Last(s)) then TrimEnd(s[..|s| - 1]) else s }

  function Unbracket(s: string): string {
    var t := if |s| > 0 && s[0] == '[' then s[1..] else s;
    if |t| > 0 && Last(t) == ']' then t[..|t| - 1] else t
  }

  /** What both parsers look at: trimmed, one bracket taken off either end. */
  function Bare(s: string): string { Unbracket(TrimEnd(TrimStart(s))) }

  /** toLowerCase, as far as it can produce a hexadecimal digit. */
  function Lower(c: char): char { if 'A' <= c <= 'Z' then c - 'A' + 'a' else c }

  function LowerAll(s: string): (r: string)
    ensures |r| == |s| && forall i :: 0 <= i < |s| ==> r[i] == Lower(s[i])
  {
    seq(|s|, i requires 0 <= i < |s| => Lower(s[i]))
  }

  /** String.split on one character. */
  function SplitOn(s: string, sep: char): (r: seq<string>)
    ensures |r| > 0
  {
    if |s| == 0 then [""]
    else
      var rest := SplitOn(s[1..], sep);
      if s[0] == sep then [""] + rest else [[s[0]] + rest[0]] + rest[1..]
  }

  function Join(parts: seq<string>, sep: char): string {
    if |parts| == 0 then "" else if |parts| == 1 then parts[0] else parts[0] + [sep] + Join(parts[1..], sep)
  }

  predicate DoubleAt(s: string, i: nat) { i + 1 < |s| && s[i] == ':' && s[i + 1] == ':' }

  function FirstDouble(s: string): (r: Option<nat>)
    ensures r.Some? ==> DoubleAt(s, r.value) && forall i :: 0 <= i < r.value ==> !DoubleAt(s, i)
    ensures r.None? ==> forall i: nat :: !DoubleAt(s, i)
  {
    if |s| < 2 then None
    else if s[0] == ':' && s[1] == ':' then Some(0)
    else
      assert forall i: nat :: i > 0 ==> (DoubleAt(s, i) <==> DoubleAt(s[1..], i - 1));
      match FirstDouble(s[1..])
      case None => None
      case Some(i) => Some(i + 1)
  }

  /** The text before the first `::`. */
  function Head(s: string): string {
    match FirstDouble(s) case None => s case Some(i) => s[..i]
  }

  /** The text between the first `::` and the next; None without a `::`. */
  function Tail(s: string): Option<string> {
    match FirstDouble(s) case None => None case Some(i) => Some(Head(s[i + 2..]))
  }

  // ----- Digits -----

  function HexValue(c: char): Option<nat> {
    if '0' <= c <= '9' then Some((c - '0') as int)
    else if 'a' <= c <= 'f' then Some((c - 'a') as int + 10)
    else if 'A' <= c <= 'F' then Some((c - 'A') as int + 10)
    else None
  }

  predicate IsHex(s: string) { forall i :: 0 <= i < |s| ==> HexValue(s[i]).Some? }

  /** parseInt(s, 16) of a string of hexadecimal digits. */
  function ParseHex(s: string): nat
    requires IsHex(s)
  {
    if |s| == 0 then 0 else 16 * ParseHex(s[..|s| - 1]) + HexValue(Last(s)).value
  }

  predicate IsDigits(s: string) { forall i :: 0 <= i < |s| ==> '0' <= s[i] <= '9' }

  function ParseDecimal(s: string): nat
    requires IsDigits(s)
  {
    if |s| == 0 then 0 else 10 * ParseDecimal(s[..|s| - 1]) + (Last(s) - '0') as int
  }

  // ----- The parsers' pieces -----

  /** One octet as the helper accepts it. */
  function StrictOctet(s: string): Option<nat> {
    if 1 <= |s| <= 3 && IsDigits(s) && ParseDecimal(s) <= 255 then Some(ParseDecimal(s)) else None
  }

  /** parseIPv4 of the helper. */
  function ParseIPv4(s: string): Option<seq<nat>> {
    var parts := SplitOn(s, '.');
    if |parts| != 4 || exists i :: 0 <= i < 4 && StrictOctet(parts[i]).None? then None
    else Some(seq(4, i requires 0 <= i < 4 => StrictOctet(parts[i]).value))
  }

  function WordBytes(w: nat): seq<nat> { [w / 256, w % 256] }

  predicate LowerHex(s: string) { forall i :: 0 <= i < |s| ==> HexValue(s[i]).Some? && Lower(s[i]) == s[i] }

  /** A piece between colons, read by the helper: a dotted quad or one to four lower-case digits. */
  function StrictPiece(s: string): Option<seq<nat>> {
    if '.' in s then ParseIPv4(s)
    else if 1 <= |s| <= 4 && LowerHex(s) then Some(WordBytes(ParseHex(s)))
    else None
  }

  /** The same piece read by the agent, which has asked isIP before; None where Number or parseInt has no number. */
  function LoosePiece(s: string): Option<seq<nat>> {
    if '.' in s then
      var parts := SplitOn(s, '.');
      if forall i :: 0 <= i < |parts| ==> IsDigits(parts[i]) then
        Some(seq(|parts|, i requires 0 <= i < |parts| => ParseDecimal(parts[i])))
      else None
    else if IsHex(s) then Some(WordBytes(ParseHex(s)))
    else None
  }

  type Reader = string -> Option<seq<nat>>

  /** The bytes of pieces in order; None if one cannot be read. */
  function Gathered(pieces: seq<string>, read: Reader): Option<seq<nat>> {
    if |pieces| == 0 then Some([])
    else
      match Gathered(pieces[..|pieces| - 1], read)
      case None => None
      case Some(before) =>
        match read(Last(pieces)) case None => None case Some(bytes) => Some(before + bytes)
  }

  function Expanded(part: string, read: Reader): Option<seq<nat>> {
    if part == "" then Some([]) else Gathered(SplitOn(part, ':'), read)
  }

  function Zeros(n: nat): (z: seq<nat>)
    ensures |z| == n && forall i :: 0 <= i < n ==> z[i] == 0
  {
    seq(n, _ => 0)
  }

  /** Both sides of `::` expanded, and zeros between them. */
  function Assembled(host: string, read: Reader): Option<seq<nat>> {
    var tail := Tail(host);
    match (Expanded(Head(host), read), if tail.Some? then Expanded(tail.value, read) else Some([]))
    case (Some(front), Some(back)) =>
      if |front| + |back| > 16 || (tail.None? && |front| + |back| != 16) then None
      else Some(front + Zeros(16 - |front| - |back|) + back)
    case _ => None
  }

  /** The accumulating loop of `expand`. */
  method Expand(part: string, read: Reader) returns (r: Option<seq<nat>>)
    ensures r == Expanded(part, read)
  {
    if part == "" { return Some([]); }
    var pieces := SplitOn(part, ':');
    var groups: seq<nat> := [];
    for i := 0 to |pieces|
      invariant Gathered(pieces[..i], read) == Some(groups)
    {
      assert pieces[..i + 1][..i] == pieces[..i];
      var bytes := read(pieces[i]);
      if bytes.None? {
        UnreadableStays(pieces, i + 1, read);
        return None;
      }
      groups := groups + bytes.value;
    }
    assert pieces[..|pieces|] == pieces;
    r := Some(groups);
  }

  lemma {:induction false} UnreadableStays(pieces: seq<string>, n: nat, read: Reader)
    requires n <= |pieces| && Gathered(pieces[..n], read).None?
    ensures Gathered(pieces, read).None?
    decreases |pieces|
  {
    if n == |pieces| {
      assert pieces[..n] == pieces;
    } else {
      assert pieces[..|pieces| - 1][..n] == pieces[..n];
      UnreadableStays(pieces[..|pieces| - 1], n, read);
    }
  }

  method Assemble(host: string, read: Reader) returns (r: Option<seq<nat>>)
    ensures r == Assembled(host, read)
  {
    var tail := Tail(host);
    var front := Expand(Head(host), read);
    var back := Some([]);
    if tail.Some? { back := Expand(tail.value, read); }
    if front.None? || back.None? { return None; }
    var missing := 16 - |front.value| - |back.value|;
    if missing < 0 || (tail.None? && missing != 0) { return None; }
    r := Some(front.value + Zeros(missing) + back.value);
  }

  /** parseIPv6 as a function of the text. */
  function HelperBytes(value: string): Option<seq<nat>> {
    var host := LowerAll(Bare(value));
    if ':' in host then Assembled(host, StrictPiece) else None
  }

  /** The helper lower-cases before it takes the brackets off, which comes to the same. */
  method ParseIPv6(value: string) returns (r: Option<seq<nat>>)
    ensures r == HelperBytes(value)
  {
    var host := Unbracket(LowerAll(TrimEnd(TrimStart(value))));
    assert host == LowerAll(Bare(value));
    if ':' !in host { return None; }
    r := Assemble(host, StrictPiece);
  }

  // ----- The textual forms -----

  datatype Digit = Digit(value: nat, upper: bool)

  /** One to four hexadecimal digits of either case, leading zeros allowed. */
  type Group = seq<Digit>

  ghost predicate LegalGroup(g: Group) { 1 <= |g| <= 4 && forall i :: 0 <= i < |g| ==> g[i].value < 16 }

  function CharOf(d: Digit): char
    requires d.value < 16
  {
    if d.value < 10 then '0' + d.value as char else if d.upper then 'A' + (d.value - 10) as char else 'a' + (d.value - 10) as char
  }

  function GroupText(g: Group): string
    requires forall i :: 0 <= i < |g| ==> g[i].value < 16
  {
    seq(|g|, i requires 0 <= i < |g| => CharOf(g[i]))
  }

  function WordOf(g: Group): nat { if |g| == 0 then 0 else 16 * WordOf(g[..|g| - 1]) + Last(g).value }

  function DecimalDigit(n: nat): char
    requires n < 10
  {
    '0' + n as char
  }

  /** The decimal form of an octet, without leading zeros. */
  function OctetText(n: nat): string
    requires n < 256
  {
    if n < 10 then [DecimalDigit(n)]
    else if n < 100 then [DecimalDigit(n / 10), DecimalDigit(n % 10)]
    else [DecimalDigit(n / 100), DecimalDigit(n / 10 % 10), DecimalDigit(n % 10)]
  }

  ghost predicate LegalQuad(q: seq<nat>) { |q| == 4 && forall i :: 0 <= i < 4 ==> q[i] < 256 }

  function QuadParts(q: seq<nat>): (r: seq<string>)
    requires forall i :: 0 <= i < |q| ==> q[i] < 256
    ensures |r| == |q|
  {
    seq(|q|, i requires 0 <= i < |q| => OctetText(q[i]))
  }

  function QuadText(q: seq<nat>): string
    requires forall i :: 0 <= i < |q| ==> q[i] < 256
  {
    Join(QuadParts(q), '.')
  }

  /**
   * A textual form: groups, optionally `::` and more groups, optionally a dotted IPv4 tail at the
   * very end. Eight groups in all, a quad counting as two; `::` stands for at least one.
   */
  datatype Spelling = Spelling(front: seq<Group>, gap: bool, back: seq<Group>, quad: Option<seq<nat>>)

  ghost predicate LegalGroups(gs: seq<Group>) { forall i :: 0 <= i < |gs| ==> LegalGroup(gs[i]) }

  ghost predicate Legal(sp: Spelling) {
    && LegalGroups(sp.front) && LegalGroups(sp.back) && (sp.quad.Some? ==> LegalQuad(sp.quad.value))
    && (if sp.gap then Count(sp) <= 7 else sp.back == [] && Count(sp) == 8)
  }

  function Count(sp: Spelling): nat { |sp.front| + |sp.back| + if sp.quad.Some? then 2 else 0 }

  ghost function Texts(gs: seq<Group>, quad: Option<seq<nat>>): seq<string>
    requires LegalGroups(gs) && (quad.Some? ==> LegalQuad(quad.value))
  {
    seq(|gs|, i requires 0 <= i < |gs| => GroupText(gs[i])) + if quad.Some? then [QuadText(quad.value)] else []
  }

  ghost function Text(sp: Spelling): string
    requires Legal(sp)
  {
    if sp.gap then Join(Texts(sp.front, None), ':') + "::" + Join(Texts(sp.back, sp.quad), ':')
    else Join(Texts(sp.front, sp.quad), ':')
  }

  function GroupBytes(gs: seq<Group>): (r: seq<nat>)
    ensures |r| == 2 * |gs|
  {
    if |gs| == 0 then [] else GroupBytes(gs[..|gs| - 1]) + WordBytes(WordOf(Last(gs)))
  }

  function SideBytes(gs: seq<Group>, quad: Option<seq<nat>>): seq<nat> { GroupBytes(gs) + quad.GetOr([]) }

  /** The 16 bytes a form stands for. */
  ghost function Bytes(sp: Spelling): (r: seq<nat>)
    requires Legal(sp)
    ensures |r| == 16
  {
    if sp.gap then GroupBytes(sp.front) + Zeros(16 - 2 * Count(sp)) + SideBytes(sp.back, sp.quad)
    else SideBytes(sp.front, sp.quad)
  }
}

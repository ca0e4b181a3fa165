/**
 The revocation script's scanner for the top-level keys of a JSON object, against the grammar of
 RFC 8259: objects (section 4), arrays (section 5), strings (section 7).
 */
module JsonKeys {
  import opened Common

  // ---------- JSON texts ----------

  /** A character of a string literal, as written. */
  datatype Piece = Plain(c: char) | Escape(c: char) | Unicode(digits: string)

  type Literal = seq<Piece>

  /**
   Values with the white space around their tokens. An atom stands for a number or a literal name:
   a token without quotes and without curly brackets.
   */
  datatype Value =
    | Atom(text: string)
    | Str(literal: Literal)
    | Arr(blank: string, elements: Elements)
    | Obj(blank: string, members: Members)

  datatype Elements = NoElements | Element(before: string, value: Value, after: string, rest: Elements)

  datatype Members =
    | NoMembers
    | Member(before: string, name: Literal, gap: string, space: string, value: Value, after: string, rest: Members)

  predicate JsonSpace(c: char) {
    c == ' ' || c == '\t' || c == '\n' || c == '\r'
  }

  /** The white space of JavaScript's `\s`. */
  predicate Space(c: char) {
    JsonSpace(c) || c as int in {11, 12, 0xa0, 0x1680, 0x2028, 0x2029, 0x202f, 0x205f, 0x3000, 0xfeff}
    || 0x2000 <= c as int <= 0x200a
  }

  predicate Hex(c: char) {
    '0' <= c <= '9' || 'a' <= c <= 'f' || 'A' <= c <= 'F'
  }

  predicate ValidPiece(p: Piece) {
    match p
    case Plain(c) => c != '"' && c != '\\' && ' ' <= c
    case Escape(c) => c in "\"\\/bfnrt"
    case Unicode(digits) => |digits| == 4 && forall d | d in digits :: Hex(d)
  }

  ghost predicate Blank(s: string) {
    forall c | c in s :: JsonSpace(c)
  }

  ghost predicate ValidLiteral(l: Literal) {
    forall p | p in l :: ValidPiece(p)
  }

  ghost predicate ValidValue(v: Value) {
    match v
    case Atom(text) => text != "" && forall c | c in text :: c != '"' && c != '{' && c != '}' && c != ':'
    case Str(literal) => ValidLiteral(literal)
    case Arr(blank, elements) => Blank(blank) && ValidElements(elements)
    case Obj(blank, members) => Blank(blank) && ValidMembers(members)
  }

  ghost predicate ValidElements(es: Elements) {
    match es
    case NoElements => true
    case Element(before, value, after, rest) => Blank(before) && ValidValue(value) && Blank(after) && ValidElements(rest)
  }

  ghost predicate ValidMembers(ms: Members) {
    match ms
    case NoMembers => true
    case Member(before, name, gap, space, value, after, rest) =>
      && Blank(before) && ValidLiteral(name) && Blank(gap) && Blank(space) && ValidValue(value) && Blank(after)
      && ValidMembers(rest)
  }

  function PieceText(p: Piece): string {
    match p
    case Plain(c) => [c]
    case Escape(c) => ['\\', c]
    case Unicode(digits) => ['\\', 'u'] + digits
  }

  function LiteralText(l: Literal): string {
    if l == [] then [] else PieceText(l[0]) + LiteralText(l[1..])
  }

  function Quoted(l: Literal): string {
    ['"'] + LiteralText(l) + ['"']
  }

  function ValueText(v: Value): string
    decreases v, 2
  {
    match v
    case Atom(text) => text
    case Str(literal) => Quoted(literal)
    case Arr(blank, elements) => ['['] + blank + ElementsText(elements) + [']']
    case Obj(blank, members) => ['{'] + blank + MembersText(members) + ['}']
  }

  function ElementsText(es: Elements): string
    decreases es, 1
  {
    match es
    case NoElements => []
    case Element(before, value, after, rest) =>
      before + ValueText(value) + after + if rest.NoElements? then [] else [','] + ElementsText(rest)
  }

  function MemberText(ms: Members): string
    requires ms.Member?
    decreases ms, 0
  {
    ms.before + Quoted(ms.name) + ms.gap + [':'] + ms.space + ValueText(ms.value) + ms.after
  }

  function MembersText(ms: Members): string
    decreases ms, 1
  {
    if ms.NoMembers? then []
    else MemberText(ms) + if ms.rest.NoMembers? then [] else [','] + MembersText(ms.rest)
  }

  // ---------- Decoded names ----------

  /** A name as a sequence of code units. */
  type Name = seq<int>

  function HexValue(c: char): int
    requires Hex(c)
  {
    if '0' <= c <= '9' then c as int - '0' as int
    else if 'a' <= c <= 'f' then c as int - 'a' as int + 10
    else c as int - 'A' as int + 10
  }

  function Unescaped(c: char): int {
    match c
    case 'b' => 8
    case 'f' => 12
    case 'n' => 10
    case 'r' => 13
    case 't' => 9
    case _ => c as int
  }

  function PieceUnit(p: Piece): int
    requires ValidPiece(p)
  {
    match p
    case Plain(c) => c as int
    case Escape(c) => Unescaped(c)
    case Unicode(d) => HexValue(d[0]) * 4096 + HexValue(d[1]) * 256 + HexValue(d[2]) * 16 + HexValue(d[3])
  }

  /** The white space of JSON, and that of JavaScript beyond it, by code point. */
  lemma WhiteSpaceByCodePoint(c: char)
    ensures JsonSpace(c) <==> c as int in {0x20, 0x09, 0x0A, 0x0D}
    ensures Space(c) <==>
            || c as int in {0x09, 0x0A, 0x0B, 0x0C, 0x0D, 0x20, 0xA0, 0x1680, 0x2028, 0x2029, 0x202F, 0x205F, 0x3000, 0xFEFF}
            || c as int in {0x2000, 0x2001, 0x2002, 0x2003, 0x2004, 0x2005, 0x2006, 0x2007, 0x2008, 0x2009, 0x200A}
  {
  }

  /** The short escapes of section 7 of RFC 8259. */
  lemma ShortEscapesByCodePoint()
    ensures PieceUnit(Escape('b')) == 0x08 && PieceUnit(Escape('f')) == 0x0C && PieceUnit(Escape('n')) == '\n' as int
    ensures PieceUnit(Escape('r')) == '\r' as int && PieceUnit(Escape('t')) == '\t' as int
    ensures forall c | c in "\"\\/" :: ValidPiece(Escape(c)) && PieceUnit(Escape(c)) == c as int
  {
  }

  const LOWER_DIGITS := "0123456789abcdef"
  const UPPER_DIGITS := "0123456789ABCDEF"

  lemma DigitReads(v: nat)
    requires v < 16
    ensures Hex(LOWER_DIGITS[v]) && HexValue(LOWER_DIGITS[v]) == v
    ensures Hex(UPPER_DIGITS[v]) && HexValue(UPPER_DIGITS[v]) == v
  {
  }

  /** Nothing but the sixteen digits, in either case, is a hexadecimal digit. */
  lemma OnlyDigitsAreHex(c: char)
    ensures Hex(c) <==> c in LOWER_DIGITS || c in UPPER_DIGITS
  {
    if Hex(c) {
      var v := HexValue(c);
      assert LOWER_DIGITS[v] == c || UPPER_DIGITS[v] == c;
    }
  }

  /** Four digits, of either case each, stand for the code unit they spell. */
  lemma UnicodeEscapeReads(a: nat, b: nat, c: nat, d: nat, digits: string)
    requires a < 16 && b < 16 && c < 16 && d < 16 && |digits| == 4
    requires digits[0] in {LOWER_DIGITS[a], UPPER_DIGITS[a]} && digits[1] in {LOWER_DIGITS[b], UPPER_DIGITS[b]}
    requires digits[2] in {LOWER_DIGITS[c], UPPER_DIGITS[c]} && digits[3] in {LOWER_DIGITS[d], UPPER_DIGITS[d]}
    ensures ValidPiece(Unicode(digits)) && PieceUnit(Unicode(digits)) == ((a * 16 + b) * 16 + c) * 16 + d
  {
    hide Hex, HexValue;
    DigitReads(a);
    DigitReads(b);
    DigitReads(c);
    DigitReads(d);
  }

  function Decoded(l: Literal): Name
    requires ValidLiteral(l)
  {
    if l == [] then [] else [PieceUnit(l[0])] + Decoded(l[1..])
  }

  /** The decoded names of an object's own members, in order, duplicates kept. */
  function Names(ms: Members): seq<Name>
    requires ValidMembers(ms)
  {
    match ms
    case NoMembers => []
    case Member(_, name, _, _, _, _, rest) => [Decoded(name)] + Names(rest)
  }

  // ---------- JSON.parse on a string literal ----------

  function Unescape(body: string): Option<Name> {
    if body == [] then Some([])
    else if body[0] == '\\' then
      if |body| >= 6 && body[1] == 'u' && Hex(body[2]) && Hex(body[3]) && Hex(body[4]) && Hex(body[5]) then
        Prefixed(PieceUnit(Unicode(body[2..6])), Unescape(body[6..]))
      else if |body| >= 2 && body[1] in "\"\\/bfnrt" then Prefixed(Unescaped(body[1]), Unescape(body[2..]))
      else None
    else if body[0] == '"' || body[0] < ' ' then None
    else Prefixed(body[0] as int, Unescape(body[1..]))
  }

  function Prefixed(unit: int, rest: Option<Name>): Option<Name> {
    if rest.Some? then Some([unit] + rest.value) else None
  }

  /** JSON.parse of a slice that starts and ends with a quote. */
  function ParseLiteral(slice: string): Option<Name> {
    if |slice| >= 2 && slice[0] == '"' && slice[|slice| - 1] == '"' then Unescape(slice[1..|slice| - 1]) else None
  }

  lemma {:induction false} UnescapeDecodes(l: Literal)
    requires ValidLiteral(l)
    ensures Unescape(LiteralText(l)) == Some(Decoded(l))
  {
    if l != [] {
      var body, rest, p := LiteralText(l), LiteralText(l[1..]), l[0];
      assert ValidPiece(p);
      UnescapeDecodes(l[1..]);
      assert body[|PieceText(p)|..] == rest;
      if p.Unicode? {
        assert body[2..6] == p.digits && forall i | 0 <= i < 4 :: Hex(p.digits[i]);
      } else if p.Escape? {
        assert body[1] != 'u';
      }
    }
  }

  lemma ParseDecodes(l: Literal)
    requires ValidLiteral(l)
    ensures ParseLiteral(Quoted(l)) == Some(Decoded(l))
  {
    UnescapeDecodes(l);
    assert Quoted(l)[1..|Quoted(l)| - 1] == LiteralText(l);
  }

  // ---------- The scanner ----------

  datatype Scanned = Keys(keys: seq<Name>) | Invalid

  function Prepend(key: Name, rest: Scanned): Scanned {
    if rest.Keys? then Keys([key] + rest.keys) else Invalid
  }

  /** The position of the quote that ends a literal whose body starts `s`; `|s|` or more if none does. */
  function LiteralEnd(s: string): nat {
    if s == [] then 0
    else if s[0] == '\\' then if |s| == 1 then 2 else 2 + LiteralEnd(s[2..])
    else if s[0] == '"' then 0
    else 1 + LiteralEnd(s[1..])
  }

  /** `s` continues with a colon after white space. */
  predicate ColonNext(s: string) {
    s != [] && if Space(s[0]) then ColonNext(s[1..]) else s[0] == ':'
  }

  /** What the scanner makes of the rest of the text at object depth `depth`. */
  function Scan(s: string, depth: int): Scanned {
    if s == [] then Keys([])
    else if s[0] == '{' then Scan(s[1..], depth + 1)
    else if s[0] == '}' then Scan(s[1..], depth - 1)
    else if s[0] != '"' then Scan(s[1..], depth)
    else
      var end := 1 + LiteralEnd(s[1..]);
      if end >= |s| then Invalid
      else
        var rest := Scan(s[end + 1..], depth);
        if depth == 1 && ColonNext(s[end + 1..]) then
          var key := ParseLiteral(s[..end + 1]);
          if key.None? then Invalid else Prepend(key.value, rest)
        else rest
  }

  // ---------- The scanner on JSON texts ----------

  lemma {:induction false} PlainRun(s: string, tail: string)
    requires forall c | c in s :: c != '"' && c != '\\'
    ensures LiteralEnd(s + tail) == |s| + LiteralEnd(tail)
  {
    if s == [] {
      assert s + tail == tail;
    } else {
      assert (s + tail)[0] == s[0] && (s + tail)[1..] == s[1..] + tail;
      assert s[0] in s && forall c | c in s[1..] :: c in s;
      PlainRun(s[1..], tail);
    }
  }

  lemma EndAfterPiece(p: Piece, rest: string)
    requires ValidPiece(p)
    ensures LiteralEnd(PieceText(p) + rest) == |PieceText(p)| + LiteralEnd(rest)
  {
    var all := PieceText(p) + rest;
    match p
    case Plain(c) => assert all[1..] == rest;
    case Escape(c) => assert all[2..] == rest;
    case Unicode(digits) =>
      assert all[2..] == digits + rest;
      PlainRun(digits, rest);
  }

  lemma {:induction false} EndOfLiteral(l: Literal, tail: string)
    requires ValidLiteral(l)
    ensures LiteralEnd(LiteralText(l) + (['"'] + tail)) == |LiteralText(l)|
  {
    var close := ['"'] + tail;
    if l == [] {
      assert LiteralText(l) + close == close;
    } else {
      var rest := LiteralText(l[1..]) + close;
      EndOfLiteral(l[1..], tail);
      assert LiteralText(l) + close == PieceText(l[0]) + rest;
      EndAfterPiece(l[0], rest);
    }
  }

  /** A literal is passed over as a whole; it is a key exactly at depth 1 before a colon. */
  lemma ScanLiteral(l: Literal, tail: string, depth: int)
    requires ValidLiteral(l)
    ensures Scan(Quoted(l) + tail, depth) ==
            if depth == 1 && ColonNext(tail) then Prepend(Decoded(l), Scan(tail, depth)) else Scan(tail, depth)
  {
    var s := Quoted(l) + tail;
    var end := 1 + |LiteralText(l)|;
    assert s[0] == '"' && s[1..] == LiteralText(l) + (['"'] + tail);
    EndOfLiteral(l, tail);
    assert s[end + 1..] == tail && s[..end + 1] == Quoted(l);
    ParseDecodes(l);
  }

  lemma {:induction false} ScanPasses(s: string, tail: string, depth: int)
    requires forall c | c in s :: c != '"' && c != '{' && c != '}'
    ensures Scan(s + tail, depth) == Scan(tail, depth)
  {
    if s == [] {
      assert s + tail == tail;
    } else {
      assert (s + tail)[0] == s[0] && (s + tail)[1..] == s[1..] + tail;
      assert s[0] in s && forall c | c in s[1..] :: c in s;
      ScanPasses(s[1..], tail, depth);
    }
  }

  lemma {:induction false} BlankBefore(blank: string, tail: string)
    requires Blank(blank)
    ensures ColonNext(blank + tail) == ColonNext(tail)
  {
    if blank == [] {
      assert blank + tail == tail;
    } else {
      assert (blank + tail)[0] == blank[0] && (blank + tail)[1..] == blank[1..] + tail;
      assert JsonSpace(blank[0]);
      BlankBefore(blank[1..], tail);
    }
  }

  // ---------- Values and members ----------

  function MoreElements(rest: Elements): string {
    if rest.NoElements? then [] else [','] + ElementsText(rest)
  }

  function MoreMembers(rest: Members): string {
    if rest.NoMembers? then [] else [','] + MembersText(rest)
  }

  lemma BlankPasses(blank: string, tail: string, depth: int)
    requires Blank(blank)
    ensures Scan(blank + tail, depth) == Scan(tail, depth)
  {
    ScanPasses(blank, tail, depth);
  }

  /** A character that means nothing to the scanner. */
  lemma MarkPasses(c: char, tail: string, depth: int)
    requires c != '"' && c != '{' && c != '}'
    ensures Scan([c] + tail, depth) == Scan(tail, depth)
  {
    ScanPasses([c], tail, depth);
  }

  lemma NoColonAfter(blank: string, c: char, tail: string)
    requires Blank(blank) && !Space(c)
    ensures ColonNext(blank + ([c] + tail)) <==> c == ':'
  {
    BlankBefore(blank, [c] + tail);
    assert ([c] + tail)[0] == c;
  }

  /** A value inside an object adds no key, however it is nested, unless it is mistaken for a name. */
  lemma {:induction false} ScanValue(v: Value, tail: string, depth: int)
    requires ValidValue(v) && depth >= 1 && (depth == 1 ==> !ColonNext(tail))
    ensures Scan(ValueText(v) + tail, depth) == Scan(tail, depth)
    decreases v
  {
    hide Scan, ColonNext, ElementsText, MembersText;
    match v
    case Atom(text) => ScanPasses(text, tail, depth);
    case Str(literal) => ScanLiteral(literal, tail, depth);
    case Arr(blank, elements) =>
      var inner := ElementsText(elements) + ([']'] + tail);
      Wrapped('[', blank, ElementsText(elements), ']', tail);
      MarkPasses('[', blank + inner, depth);
      BlankPasses(blank, inner, depth);
      ScanElements(elements, tail, depth);
      MarkPasses(']', tail, depth);
    case Obj(blank, members) =>
      var inner := MembersText(members) + (['}'] + tail);
      Wrapped('{', blank, MembersText(members), '}', tail);
      Opens(blank + inner, depth);
      BlankPasses(blank, inner, depth + 1);
      ScanMembers(members, ['}'] + tail, depth + 1);
      Closes(tail, depth + 1);
  }

  lemma Wrapped(left: char, blank: string, body: string, right: char, tail: string)
    ensures [left] + blank + body + [right] + tail == [left] + (blank + (body + ([right] + tail)))
  {
  }

  lemma Opens(tail: string, depth: int)
    ensures Scan(['{'] + tail, depth) == Scan(tail, depth + 1)
  {
    assert (['{'] + tail)[1..] == tail;
  }

  lemma Closes(tail: string, depth: int)
    ensures Scan(['}'] + tail, depth) == Scan(tail, depth - 1)
  {
    assert (['}'] + tail)[1..] == tail;
  }

  lemma {:induction false} ScanElements(es: Elements, tail: string, depth: int)
    requires ValidElements(es) && depth >= 1
    ensures Scan(ElementsText(es) + ([']'] + tail), depth) == Scan([']'] + tail, depth)
    decreases es
  {
    hide Scan, ColonNext;
    var close := [']'] + tail;
    match es
    case NoElements => assert ElementsText(es) + close == close;
    case Element(before, value, after, rest) =>
      var more := MoreElements(rest) + close;
      assert ElementsText(es) + close == before + (ValueText(value) + (after + more));
      BlankPasses(before, ValueText(value) + (after + more), depth);
      if rest.NoElements? {
        assert more == close;
        NoColonAfter(after, ']', tail);
      } else {
        assert more == [','] + (ElementsText(rest) + close);
        NoColonAfter(after, ',', ElementsText(rest) + close);
        MarkPasses(',', ElementsText(rest) + close, depth);
        ScanElements(rest, tail, depth);
      }
      ScanValue(value, after + more, depth);
      BlankPasses(after, more, depth);
  }

  /** One member: at depth 1 its name is a key, deeper it is not; its value adds nothing. */
  lemma {:induction false} ScanMember(ms: Members, more: string, depth: int)
    requires ms.Member? && ValidMembers(ms) && depth >= 1
    requires depth == 1 ==> !ColonNext(ms.after + more)
    ensures
      Scan(MemberText(ms) + more, depth) ==
      if depth == 1 then Prepend(Decoded(ms.name), Scan(more, depth)) else Scan(more, depth)
    decreases ms, 0
  {
    hide Scan, ColonNext;
    var afterColon := ms.space + (ValueText(ms.value) + (ms.after + more));
    var afterName := ms.gap + ([':'] + afterColon);
    assert MemberText(ms) + more == ms.before + (Quoted(ms.name) + afterName);
    BlankPasses(ms.before, Quoted(ms.name) + afterName, depth);
    NoColonAfter(ms.gap, ':', afterColon);
    ScanLiteral(ms.name, afterName, depth);
    BlankPasses(ms.gap, [':'] + afterColon, depth);
    MarkPasses(':', afterColon, depth);
    BlankPasses(ms.space, ValueText(ms.value) + (ms.after + more), depth);
    ScanValue(ms.value, ms.after + more, depth);
    BlankPasses(ms.after, more, depth);
  }

  lemma MembersSplit(ms: Members, tail: string)
    requires ms.Member?
    ensures MembersText(ms) + tail == MemberText(ms) + (MoreMembers(ms.rest) + tail)
    ensures ms.rest.NoMembers? ==> MoreMembers(ms.rest) + tail == tail
    ensures ms.rest.Member? ==> MoreMembers(ms.rest) + tail == [','] + (MembersText(ms.rest) + tail)
  {
    hide MemberText;
    Joins(MemberText(ms), MoreMembers(ms.rest), tail);
    Joins([','], MembersText(ms.rest), tail);
    Joins([], [], tail);
  }

  lemma Joins(a: string, b: string, c: string)
    ensures a + b + c == a + (b + c)
    ensures [] + c == c
  {
  }

  /** Below the top level, members add no key. */
  lemma {:induction false} ScanMembers(ms: Members, tail: string, depth: int)
    requires ValidMembers(ms) && depth >= 2
    ensures Scan(MembersText(ms) + tail, depth) == Scan(tail, depth)
    decreases ms, 1
  {
    hide Scan, ColonNext, MemberText, MembersText, MoreMembers;
    if ms.NoMembers? {
      NoMemberText(ms, tail);
    } else {
      var more := MoreMembers(ms.rest) + tail;
      MembersSplit(ms, tail);
      ScanMember(ms, more, depth);
      if ms.rest.Member? {
        MarkPasses(',', MembersText(ms.rest) + tail, depth);
        ScanMembers(ms.rest, tail, depth);
      }
    }
  }

  lemma NoMemberText(ms: Members, tail: string)
    requires ms.NoMembers?
    ensures MembersText(ms) + tail == tail
  {
  }

  function PrependAll(keys: seq<Name>, rest: Scanned): Scanned {
    if rest.Keys? then Keys(keys + rest.keys) else Invalid
  }

  /** At the top level, members add exactly their names. */
  lemma {:induction false} ScanTop(ms: Members, tail: string)
    requires ValidMembers(ms)
    ensures Scan(MembersText(ms) + (['}'] + tail), 1) == PrependAll(Names(ms), Scan(['}'] + tail, 1))
    decreases ms
  {
    hide Scan, ColonNext, MemberText, MembersText, MoreMembers;
    var close := ['}'] + tail;
    if ms.NoMembers? {
      NoMemberText(ms, close);
    } else {
      var more := MoreMembers(ms.rest) + close;
      MembersSplit(ms, close);
      if ms.rest.NoMembers? {
        NoColonAfter(ms.after, '}', tail);
      } else {
        NoColonAfter(ms.after, ',', MembersText(ms.rest) + close);
        MarkPasses(',', MembersText(ms.rest) + close, 1);
        ScanTop(ms.rest, tail);
      }
      ScanMember(ms, more, 1);
      PrependAllAssociates([], Decoded(ms.name), Scan(more, 1));
    }
  }

  /** A JSON text that is an object, with white space around it. */
  function ObjectText(start: string, blank: string, members: Members, end: string): string {
    start + ValueText(Obj(blank, members)) + end
  }

  /**
   The scanner agrees with JSON: on every object text it returns exactly the decoded names of the
   object's own members, in order and with duplicates.
   */
  lemma ScannerAgreesWithJson(start: string, blank: string, members: Members, end: string)
    requires Blank(start) && Blank(blank) && ValidMembers(members) && Blank(end)
    ensures Scan(ObjectText(start, blank, members, end), 0) == Keys(Names(members))
  {
    hide Scan, ColonNext, MembersText, Names;
    var inner := MembersText(members) + (['}'] + end);
    assert ObjectText(start, blank, members, end) == start + (['{'] + (blank + inner));
    BlankPasses(start, ['{'] + (blank + inner), 0);
    Opens(blank + inner, 0);
    BlankPasses(blank, inner, 1);
    ScanTop(members, end);
    Closes(end, 1);
    BlankPasses(end, [], 0);
    assert end + [] == end;
    NothingLeft();
  }

  lemma NothingLeft()
    ensures Scan([], 0) == Keys([])
  {
  }

  // ---------- topLevelObjectKeys ----------

  /** The inner loop: from behind the opening quote to the closing one. */
  method SkipLiteral(text: string, start: nat) returns (index: nat)
    requires start <= |text|
    ensures index == start + LiteralEnd(text[start..])
  {
    index := start;
    while index < |text|
      invariant start <= index
      invariant index <= |text| ==> index + LiteralEnd(text[index..]) == start + LiteralEnd(text[start..])
      invariant index > |text| ==> index == start + LiteralEnd(text[start..])
    {
      if text[index] == '\\' {
        assert index + 2 <= |text| ==> text[index..][2..] == text[index + 2..];
        index := index + 2;
      } else if text[index] == '"' {
        return;
      } else {
        assert text[index..][1..] == text[index + 1..];
        index := index + 1;
      }
    }
  }

  /** The white space loop. */
  method ColonFollows(text: string, start: nat) returns (colon: bool)
    requires start <= |text|
    ensures colon == ColonNext(text[start..])
  {
    var next := start;
    while next < |text| && Space(text[next])
      invariant start <= next <= |text| && ColonNext(text[next..]) == ColonNext(text[start..])
    {
      assert text[next..][1..] == text[next + 1..];
      next := next + 1;
    }
    return next < |text| && text[next] == ':';
  }

  lemma PrependAllAssociates(keys: seq<Name>, key: Name, rest: Scanned)
    ensures PrependAll(keys, Prepend(key, rest)) == PrependAll(keys + [key], rest)
  {
    if rest.Keys? {
      assert keys + ([key] + rest.keys) == (keys + [key]) + rest.keys;
    }
  }

  /** One string literal of the loop: `index` moves to its closing quote. */
  method TakeLiteral(text: string, start: nat, depth: int) returns (r: Result<Option<Name>, ()>, index: nat)
    requires start < |text| && text[start] == '"'
    ensures r.Failure? ==> Scan(text[start..], depth) == Invalid
    ensures r.Success? ==>
              && start < index < |text|
              && var rest := Scan(text[index + 1..], depth);
                 Scan(text[start..], depth) == if r.value.Some? then Prepend(r.value.value, rest) else rest
  {
    hide LiteralEnd, ColonNext, ParseLiteral;
    assert text[start..][1..] == text[start + 1..];
    index := SkipLiteral(text, start + 1);
    if index >= |text| {
      return Failure(()), index;
    }
    assert text[start..][..index - start + 1] == text[start..index + 1];
    assert text[start..][index - start + 1..] == text[index + 1..];
    var colon := ColonFollows(text, index + 1);
    if depth == 1 && colon {
      var key := ParseLiteral(text[start..index + 1]);
      return if key.None? then Failure(()) else Success(key), index;
    }
    return Success(None), index;
  }

  lemma ScanSteps(text: string, index: nat, depth: int)
    requires index < |text| && text[index] != '"'
    ensures Scan(text[index..], depth) ==
            Scan(text[index + 1..],
                 if text[index] == '{' then depth + 1 else if text[index] == '}' then depth - 1 else depth)
  {
    assert text[index..][1..] == text[index + 1..];
  }

  lemma ScanEnds(text: string, depth: int)
    ensures Scan(text[|text|..], depth) == Keys([]) && Scan(text[0..], depth) == Scan(text, depth)
  {
    assert text[0..] == text;
  }

  lemma PrependNothing(rest: Scanned)
    ensures PrependAll([], rest) == rest
  {
  }

  method TopLevelObjectKeys(text: string) returns (r: Scanned)
    ensures r == Scan(text, 0)
  {
    hide Scan;
    var keys: seq<Name>, depth, index := [], 0, 0;
    ScanEnds(text, 0);
    PrependNothing(Scan(text, 0));
    while index < |text|
      invariant 0 <= index <= |text|
      invariant PrependAll(keys, Scan(text[index..], depth)) == Scan(text, 0)
    {
      var c := text[index];
      if c == '"' {
        var key, end := TakeLiteral(text, index, depth);
        if key.Failure? {
          return Invalid;
        }
        if key.value.Some? {
          PrependAllAssociates(keys, key.value.value, Scan(text[end + 1..], depth));
          keys := keys + [key.value.value];
        }
        index := end;
      } else {
        ScanSteps(text, index, depth);
        if c == '{' {
          depth := depth + 1;
        } else if c == '}' {
          depth := depth - 1;
        }
      }
      index := index + 1;
    }
    ScanEnds(text, depth);
    return Keys(keys);
  }
}

/** The human-readable mail header, [FROM→TO kind id=... origin=...] body, its parser and its printer.
    A header that mentions an origin but does not parse is refused rather than taken for old mail. */
module Envelopes {
  import opened Wrappers
  import opened MessageIds

  datatype Envelope = Envelope(from: string, to: string, kind: string, id: string, origin: Option<string>, body: string)

  datatype Parsed = NotMail | Invalid | Mail(envelope: Envelope)

  function LowerChar(c: char): char {
    if 'A' <= c <= 'Z' then (c as int + 32) as char else c
  }

  function UpperChar(c: char): char {
    if 'a' <= c <= 'z' then (c as int - 32) as char else c
  }

  function Lower(s: string): (r: string)
    ensures |r| == |s| && forall i :: 0 <= i < |s| ==> r[i] == LowerChar(s[i])
  {
    if s == "" then "" else [LowerChar(s[0])] + Lower(s[1..])
  }

  function Upper(s: string): (r: string)
    ensures |r| == |s| && forall i :: 0 <= i < |s| ==> r[i] == UpperChar(s[i])
  {
    if s == "" then "" else [UpperChar(s[0])] + Upper(s[1..])
  }

  lemma LowerUpper(agent: string)
    requires Agent(agent)
    ensures Lower(Upper(agent)) == agent
  {
    forall i | 0 <= i < |agent|
      ensures Lower(Upper(agent))[i] == agent[i]
    {
      assert agent[i] in agent;
    }
  }

  const ARROW: char := '\U{2192}'

  // ---------------------------------------------------------------- identities

  predicate Hex(c: char) { '0' <= c <= '9' || 'a' <= c <= 'f' }

  /** Lower-case hyphenated form. */
  predicate Canonical(uuid: string) {
    |uuid| == 36 && forall i :: 0 <= i < 36 ==>
      if i == 8 || i == 13 || i == 18 || i == 23 then uuid[i] == '-' else Hex(uuid[i])
  }

  // ---------------------------------------------------------------- the header's pieces

  predicate NameChar(c: char) { AgentChar(LowerChar(c)) }

  predicate TokenChar(c: char) { !Space(c) && c != ']' }

  predicate Token(s: string) {
    s != "" && forall i :: 0 <= i < |s| ==> TokenChar(s[i])
  }

  function NameEnd(s: string): (k: nat)
    ensures k <= |s| && (k < |s| ==> !NameChar(s[k])) && forall i :: 0 <= i < k ==> NameChar(s[i])
  {
    if s == "" || !NameChar(s[0]) then 0 else 1 + NameEnd(s[1..])
  }

  function TokenEnd(s: string): (k: nat)
    ensures k <= |s| && (k < |s| ==> !TokenChar(s[k])) && forall i :: 0 <= i < k ==> TokenChar(s[i])
  {
    if s == "" || !TokenChar(s[0]) then 0 else 1 + TokenEnd(s[1..])
  }

  datatype Piece = Piece(text: string, rest: string)

  function Name(s: string): Option<Piece> {
    if NameEnd(s) == 0 then None else Some(Piece(s[..NameEnd(s)], s[NameEnd(s)..]))
  }

  function Word(s: string): Option<Piece> {
    if TokenEnd(s) == 0 then None else Some(Piece(s[..TokenEnd(s)], s[TokenEnd(s)..]))
  }

  /** What follows a literal, in any letter case. */
  function After(s: string, literal: string): Option<string> {
    if |s| >= |literal| && Lower(s[..|literal|]) == literal then Some(s[|literal|..]) else None
  }

  function Body(rest: string): Option<string> {
    if rest == "" then Some("") else if rest[0] == ' ' then Some(rest[1..]) else None
  }

  /** The end of the header, with or without an origin. */
  function Tail(s: string): Option<(Option<string>, string)> {
    match After(s, " origin=")
    case Some(t) =>
      (match Word(t)
       case Some(w) =>
         if w.rest != "" && w.rest[0] == ']' && Body(w.rest[1..]).Some?
         then Some((Some(w.text), Body(w.rest[1..]).value)) else None
       case None => None)
    case None =>
      if s != "" && s[0] == ']' && Body(s[1..]).Some? then Some((None, Body(s[1..]).value)) else None
  }

  /** From the kind on. */
  function Middle(s: string, from: string, to: string): Option<Envelope> {
    match Word(s)
    case None => None
    case Some(kind) =>
      match After(kind.rest, " id=")
      case None => None
      case Some(t) =>
        match Word(t)
        case None => None
        case Some(id) =>
          match Tail(id.rest)
          case None => None
          case Some(end) => Some(Envelope(from, to, kind.text, id.text, end.0, end.1))
  }

  function Match(content: string): Option<Envelope> {
    if content == "" || content[0] != '[' then None
    else match Name(content[1..])
      case None => None
      case Some(from) =>
        if from.rest == "" || from.rest[0] != ARROW then None
        else match Name(from.rest[1..])
          case None => None
          case Some(to) =>
            if to.rest == "" || to.rest[0] != ' ' then None
            else Middle(to.rest[1..], from.text, to.text)
  }

  // ---------------------------------------------------------------- declared origins

  predicate WordChar(c: char) { 'a' <= LowerChar(c) <= 'z' || Digit(c) || c == '_' }

  predicate Spells(h: string, i: nat) {
    && i + 6 <= |h|
    && LowerChar(h[i]) == 'o' && LowerChar(h[i + 1]) == 'r' && LowerChar(h[i + 2]) == 'i'
    && LowerChar(h[i + 3]) == 'g' && LowerChar(h[i + 4]) == 'i' && LowerChar(h[i + 5]) == 'n'
  }

  /** White space, then an equals sign. */
  predicate EqualsFrom(h: string, j: nat)
    decreases |h| - j
  {
    j < |h| && (h[j] == '=' || (Space(h[j]) && EqualsFrom(h, j + 1)))
  }

  predicate OriginAt(h: string, i: nat) {
    Spells(h, i) && (i == 0 || !WordChar(h[i - 1])) && EqualsFrom(h, i + 6)
  }

  predicate Declares(h: string) {
    exists i :: 0 <= i <= |h| && OriginAt(h, i)
  }

  function HeaderEnd(s: string): (k: nat)
    ensures k <= |s| && (k < |s| ==> s[k] == ']') && forall i :: 0 <= i < k ==> s[i] != ']'
  {
    if s == "" || s[0] == ']' then 0 else 1 + HeaderEnd(s[1..])
  }

  predicate DeclaresOrigin(content: string) {
    Declares(content[..HeaderEnd(content)])
  }

  // ---------------------------------------------------------------- parsing and printing

  function Parse(content: string): Parsed {
    match Match(content)
    case None => if DeclaresOrigin(content) then Invalid else NotMail
    case Some(e) =>
      if e.origin.None? && DeclaresOrigin(content) then Invalid
      else if e.origin.Some? && !Canonical(e.origin.value) then Invalid
      else Mail(Envelope(Lower(e.from), Lower(e.to), Lower(e.kind), e.id, e.origin, e.body))
  }

  function Header(sender: string, target: string, kind: string, id: string): string {
    "[" + (Upper(sender) + ([ARROW] + (Upper(target) + (" " + (kind + (" " + ("id=" + id)))))))
  }

  function Ending(origin: Option<string>, body: string): string {
    (if origin.Some? then " origin=" + origin.value else "") + "]" + (if body == "" then "" else " " + body)
  }

  /** The printer; it refuses an origin that is not canonical. */
  function Format(sender: string, target: string, kind: string, id: string, body: string,
                  origin: Option<string>): Option<string>
  {
    if origin.Some? && !Canonical(origin.value) then None
    else Some(Header(sender, target, kind, id) + Ending(origin, body))
  }

  // ---------------------------------------------------------------- reading back what was printed

  lemma NameStops(x: string, y: string)
    requires x != "" && (forall i :: 0 <= i < |x| ==> NameChar(x[i])) && (y == "" || !NameChar(y[0]))
    ensures Name(x + y) == Some(Piece(x, y))
  {
    var s := x + y;
    assert forall i :: 0 <= i < |x| ==> s[i] == x[i];
    assert |x| < |s| ==> s[|x|] == y[0];
    assert NameEnd(s) == |x|;
  }

  lemma TokenStops(x: string, y: string)
    requires Token(x) && (y == "" || !TokenChar(y[0]))
    ensures Word(x + y) == Some(Piece(x, y))
  {
    var s := x + y;
    assert forall i :: 0 <= i < |x| ==> s[i] == x[i];
    assert |x| < |s| ==> s[|x|] == y[0];
    assert TokenEnd(s) == |x|;
  }

  lemma AfterLiteral(literal: string, y: string)
    requires forall i :: 0 <= i < |literal| ==> LowerChar(literal[i]) == literal[i]
    ensures After(literal + y, literal) == Some(y)
  {
    var s := literal + y;
    assert s[..|literal|] == literal && s[|literal|..] == y;
    assert Lower(literal) == literal;
  }

  lemma UpperIsName(agent: string)
    requires Agent(agent)
    ensures forall i :: 0 <= i < |agent| ==> NameChar(Upper(agent)[i])
  {
    LowerUpper(agent);
    forall i | 0 <= i < |agent|
      ensures NameChar(Upper(agent)[i])
    {
      assert LowerChar(Upper(agent)[i]) == Lower(Upper(agent))[i] == agent[i];
      assert agent[i] in agent;
    }
  }

  lemma EndingIsRead(origin: Option<string>, body: string)
    requires origin.Some? ==> Canonical(origin.value)
    ensures Tail(Ending(origin, body)) == Some((origin, body))
    ensures !TokenChar(Ending(origin, body)[0])
  {
    var last := "]" + if body == "" then "" else " " + body;
    assert Body(last[1..]) == Some(body);
    if origin.Some? {
      assert Token(origin.value);
      assert Ending(origin, body) == " origin=" + (origin.value + last);
      AfterLiteral(" origin=", origin.value + last);
      TokenStops(origin.value, last);
    } else {
      assert Ending(origin, body) == last;
      if |last| >= 8 { assert Lower(last[..8])[0] == ']'; }
    }
  }

  lemma Reassociate(a: string, b: string, c: string)
    ensures (a + b) + c == a + (b + c)
  {
  }

  lemma MiddleIsRead(from: string, to: string, kind: string, id: string, body: string, origin: Option<string>)
    requires Token(kind) && Token(id) && (origin.Some? ==> Canonical(origin.value))
    ensures Middle(kind + (" " + ("id=" + id)) + Ending(origin, body), from, to) ==
            Some(Envelope(from, to, kind, id, origin, body))
  {
    var ending := Ending(origin, body);
    var rest := " id=" + (id + ending);
    Reassociate(" ", "id=", id);
    Reassociate(" id=", id, ending);
    Reassociate(kind, " id=" + id, ending);
    TokenStops(kind, rest);
    AfterLiteral(" id=", id + ending);
    EndingIsRead(origin, body);
    TokenStops(id, ending);
  }

  predicate IsName(s: string) {
    s != "" && forall i :: 0 <= i < |s| ==> NameChar(s[i])
  }

  lemma NamesAreRead(from: string, to: string, middle: string)
    requires IsName(from) && IsName(to)
    ensures Match("[" + (from + ([ARROW] + (to + (" " + middle))))) == Middle(middle, from, to)
  {
    var second := [ARROW] + (to + (" " + middle));
    var content := "[" + (from + second);
    assert content[1..] == from + second;
    NameStops(from, second);
    assert second[1..] == to + (" " + middle);
    NameStops(to, " " + middle);
    assert (" " + middle)[1..] == middle;
  }

  lemma MatchesBack(sender: string, target: string, kind: string, id: string, body: string, origin: Option<string>)
    requires Agent(sender) && Agent(target) && Token(kind) && Token(id) && (origin.Some? ==> Canonical(origin.value))
    ensures Match(Header(sender, target, kind, id) + Ending(origin, body)) ==
      Some(Envelope(Upper(sender), Upper(target), kind, id, origin, body))
  {
    var tokens, ending := kind + (" " + ("id=" + id)), Ending(origin, body);
    UpperIsName(sender);
    UpperIsName(target);
    NamesAreRead(Upper(sender), Upper(target), tokens + ending);
    MiddleIsRead(Upper(sender), Upper(target), kind, id, body, origin);
    Reassociate(" ", tokens, ending);
    Reassociate(Upper(target), " " + tokens, ending);
    Reassociate([ARROW], Upper(target) + (" " + tokens), ending);
    Reassociate(Upper(sender), [ARROW] + (Upper(target) + (" " + tokens)), ending);
    Reassociate("[", Upper(sender) + ([ARROW] + (Upper(target) + (" " + tokens))), ending);
  }

  /** What a reader should see of what was printed: the kind comes back in lower case. */
  function Expected(sender: string, target: string, kind: string, id: string, body: string,
                    origin: Option<string>): Parsed
  {
    Mail(Envelope(sender, target, Lower(kind), id, origin, body))
  }

  /** With an origin, any body is read back exactly, and so is everything else but letter case. */
  lemma RoundTripWithOrigin(sender: string, target: string, kind: string, id: string, body: string, origin: string)
    requires Agent(sender) && Agent(target) && Token(kind) && Token(id) && Canonical(origin)
    ensures Format(sender, target, kind, id, body, Some(origin)).Some?
    ensures Parse(Format(sender, target, kind, id, body, Some(origin)).value) ==
            Expected(sender, target, kind, id, body, Some(origin))
  {
    MatchesBack(sender, target, kind, id, body, Some(origin));
    LowerUpper(sender);
    LowerUpper(target);
  }

  // ---------------------------------------------------------------- when a header declares an origin

  /** The text ends in the bare word "origin". */
  predicate EndsInOrigin(a: string) {
    |a| >= 6 && Spells(a, |a| - 6) && (|a| == 6 || !WordChar(a[|a| - 7]))
  }

  lemma {:induction false} EqualsShift(a: string, b: string, j: nat)
    requires j <= |b|
    ensures EqualsFrom(a + b, |a| + j) == EqualsFrom(b, j)
    decreases |b| - j
  {
    if j < |b| {
      assert (a + b)[|a| + j] == b[j];
      EqualsShift(a, b, j + 1);
    }
  }

  /** Inside the first part, the search for an equals sign ends there or runs into the second. */
  lemma {:induction false} EqualsWithin(a: string, b: string, j: nat)
    requires j <= |a|
    requires b != "" && forall i :: 0 <= i < |a| ==> !Space(a[i])
    ensures EqualsFrom(a + b, j) == if j == |a| then EqualsFrom(b, 0) else a[j] == '='
    ensures j < |a| ==> EqualsFrom(a, j) == (a[j] == '=')
  {
    if j == |a| {
      EqualsShift(a, b, 0);
    } else {
      assert (a + b)[j] == a[j];
    }
  }

  lemma OriginBefore(a: string, b: string, i: nat)
    requires b != "" && !WordChar(b[0]) && forall k :: 0 <= k < |a| ==> !Space(a[k])
    requires i < |a|
    ensures OriginAt(a + b, i) == (OriginAt(a, i) || (i + 6 == |a| && EndsInOrigin(a) && EqualsFrom(b, 0)))
  {
    var h := a + b;
    assert forall k :: 0 <= k < |a| ==> h[k] == a[k];
    assert h[|a|] == b[0];
    if i + 6 <= |a| {
      assert Spells(h, i) == Spells(a, i);
      EqualsWithin(a, b, i + 6);
    } else {
      assert h[i + (|a| - i)] == b[0];
      assert !Spells(h, i);
    }
  }

  lemma SpellsShift(a: string, b: string, i: nat)
    ensures Spells(a + b, |a| + i) == Spells(b, i)
  {
    if i + 6 <= |b| {
      var h := a + b;
      assert h[|a| + i] == b[i] && h[|a| + i + 1] == b[i + 1] && h[|a| + i + 2] == b[i + 2];
      assert h[|a| + i + 3] == b[i + 3] && h[|a| + i + 4] == b[i + 4] && h[|a| + i + 5] == b[i + 5];
    }
  }

  lemma OriginAfter(a: string, b: string, i: nat)
    requires 0 < i <= |b|
    ensures OriginAt(a + b, |a| + i) == (Spells(b, i) && !WordChar(b[i - 1]) && EqualsFrom(b, i + 6))
  {
    var h := a + b;
    assert forall k :: 0 <= k < |b| ==> h[|a| + k] == b[k];
    SpellsShift(a, b, i);
    if i + 6 <= |b| { EqualsShift(a, b, i + 6); }
  }

  lemma DeclaredSomewhere(a: string, c: char, x: string, i: nat)
    requires !WordChar(c) && forall k :: 0 <= k < |a| ==> !Space(a[k])
    requires i <= |a + ([c] + x)| && OriginAt(a + ([c] + x), i)
    ensures Declares(a) || Declares(x) || (EndsInOrigin(a) && EqualsFrom([c] + x, 0))
  {
    var b := [c] + x;
    assert (a + b)[|a|] == c;
    if i < |a| {
      OriginBefore(a, b, i);
    } else if i > |a| {
      OriginAfter(a, b, i - |a|);
      FromSecond(c, x, i - |a| - 1);
    }
  }

  /** A header made of two parts around a character that is not part of a word declares an origin in
      the first part, in the second, or across them. */
  lemma DeclaresAround(a: string, c: char, x: string)
    requires !WordChar(c) && forall k :: 0 <= k < |a| ==> !Space(a[k])
    ensures Declares(a + ([c] + x)) <==> Declares(a) || Declares(x) || (EndsInOrigin(a) && EqualsFrom([c] + x, 0))
  {
    var b := [c] + x;
    if Declares(a + b) {
      var i :| 0 <= i <= |a + b| && OriginAt(a + b, i);
      DeclaredSomewhere(a, c, x, i);
    } else {
      if Declares(a) {
        var i :| 0 <= i <= |a| && OriginAt(a, i);
        OriginBefore(a, b, i);
      }
      if EndsInOrigin(a) && EqualsFrom(b, 0) { OriginBefore(a, b, |a| - 6); }
      if Declares(x) {
        var i :| 0 <= i <= |x| && OriginAt(x, i);
        FromSecond(c, x, i);
        OriginAfter(a, b, i + 1);
      }
    }
  }

  lemma FromSecond(c: char, x: string, i: nat)
    requires !WordChar(c) && i <= |x|
    ensures OriginAt(x, i) == (Spells([c] + x, i + 1) && !WordChar(([c] + x)[i]) && EqualsFrom([c] + x, i + 7))
  {
    var b := [c] + x;
    assert forall k :: 0 <= k < |x| ==> b[1 + k] == x[k];
    SpellsShift([c], x, i);
    if i + 6 <= |x| { EqualsShift([c], x, i + 6); }
  }

  lemma NoEqualsNoOrigin(s: string)
    requires forall i :: 0 <= i < |s| ==> s[i] != '='
    ensures !Declares(s)
  {
    forall j | 0 <= j <= |s|
      ensures !EqualsFrom(s, j)
    {
      NoEqualsFrom(s, j);
    }
  }

  lemma {:induction false} NoEqualsFrom(s: string, j: nat)
    requires forall i :: 0 <= i < |s| ==> s[i] != '='
    ensures !EqualsFrom(s, j)
    decreases |s| - j
  {
    if j < |s| { NoEqualsFrom(s, j + 1); }
  }

  lemma UpperOf(c: char)
    requires AgentChar(c)
    ensures var u := UpperChar(c);
      !Space(u) && u != '=' && u != ']' && LowerChar(u) == LowerChar(c) && WordChar(u) == WordChar(c)
  {
  }

  lemma UpperNames(agent: string)
    requires Agent(agent)
    ensures forall i :: 0 <= i < |agent| ==> !Space(Upper(agent)[i]) && Upper(agent)[i] != '=' && Upper(agent)[i] != ']'
    ensures EndsInOrigin(Upper(agent)) == EndsInOrigin(agent)
  {
    var u := Upper(agent);
    forall i | 0 <= i < |agent|
      ensures !Space(u[i]) && u[i] != '=' && u[i] != ']' && LowerChar(u[i]) == LowerChar(agent[i]) &&
              WordChar(u[i]) == WordChar(agent[i])
    {
      assert agent[i] in agent;
      UpperOf(agent[i]);
    }
  }

  /** A header printed without an origin declares one in exactly three ways: in the kind, in the
      identifier, or across a target that ends in the word and a kind that opens with an equals sign. */
  lemma HeaderDeclares(sender: string, target: string, kind: string, id: string)
    requires Agent(sender) && Agent(target) && Token(kind) && Token(id)
    ensures Declares(Header(sender, target, kind, id)) <==>
      Declares(kind) || Declares(id) || (EndsInOrigin(target) && kind[0] == '=')
  {
    var tokens := kind + (" " + ("id=" + id));
    UpperNames(sender);
    UpperNames(target);
    NoEqualsNoOrigin(Upper(sender));
    NoEqualsNoOrigin(Upper(target));
    TokensDeclare(kind, id);
    var second := Upper(target) + ([' '] + tokens);
    assert Declares(second) == (Declares(tokens) || (EndsInOrigin(target) && kind[0] == '=')) by {
      DeclaresAround(Upper(target), ' ', tokens);
      assert ([' '] + tokens)[1] == kind[0];
    }
    var first := Upper(sender) + ([ARROW] + second);
    assert Declares(first) == Declares(second) by {
      DeclaresAround(Upper(sender), ARROW, second);
      assert ([ARROW] + second)[0] == ARROW;
    }
    assert Header(sender, target, kind, id) == "" + (['['] + first);
    NoEqualsNoOrigin("");
    DeclaresAround("", '[', first);
  }

  lemma TokensDeclare(kind: string, id: string)
    requires Token(kind) && Token(id)
    ensures Declares(kind + (" " + ("id=" + id))) <==> Declares(kind) || Declares(id)
  {
    var tail := "id" + (['='] + id);
    assert tail == "id=" + id;
    NoEqualsNoOrigin("id");
    DeclaresAround("id", '=', id);
    DeclaresAround(kind, ' ', tail);
    assert ([' '] + tail)[1] == 'i';
  }

  lemma HeaderHasNoBracket(sender: string, target: string, kind: string, id: string)
    requires Agent(sender) && Agent(target) && Token(kind) && Token(id)
    ensures ']' !in Header(sender, target, kind, id)
  {
    UpperNames(sender);
    UpperNames(target);
    assert ']' !in Upper(sender) && ']' !in Upper(target) && ']' !in kind && ']' !in id;
    assert ']' !in kind + (" " + ("id=" + id));
    assert ']' !in Upper(target) + (" " + (kind + (" " + ("id=" + id))));
  }

  lemma {:induction false} FirstBracket(h: string, rest: string)
    requires ']' !in h && rest != "" && rest[0] == ']'
    ensures HeaderEnd(h + rest) == |h|
  {
    if h == "" {
      assert h + rest == rest;
    } else {
      assert h == [h[0]] + h[1..];
      assert (h + rest)[1..] == h[1..] + rest;
      FirstBracket(h[1..], rest);
    }
  }

  lemma PrintedDeclares(sender: string, target: string, kind: string, id: string, body: string)
    requires Agent(sender) && Agent(target) && Token(kind) && Token(id)
    ensures DeclaresOrigin(Header(sender, target, kind, id) + Ending(None, body)) <==>
      Declares(kind) || Declares(id) || (EndsInOrigin(target) && kind[0] == '=')
  {
    var h, ending := Header(sender, target, kind, id), Ending(None, body);
    HeaderDeclares(sender, target, kind, id);
    HeaderHasNoBracket(sender, target, kind, id);
    FirstBracket(h, ending);
    assert (h + ending)[..|h|] == h;
  }

  /** Without an origin, what was printed is read back exactly when the header declares none;
      otherwise the reader refuses it. */
  lemma RoundTripWithoutOrigin(sender: string, target: string, kind: string, id: string, body: string)
    requires Agent(sender) && Agent(target) && Token(kind) && Token(id)
    ensures Format(sender, target, kind, id, body, None).Some?
    ensures Parse(Format(sender, target, kind, id, body, None).value) ==
      if Declares(kind) || Declares(id) || (EndsInOrigin(target) && kind[0] == '=') then Invalid
      else Expected(sender, target, kind, id, body, None)
  {
    MatchesBack(sender, target, kind, id, body, None);
    LowerUpper(sender);
    LowerUpper(target);
    PrintedDeclares(sender, target, kind, id, body);
  }
}

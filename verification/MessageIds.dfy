/** Durable message identifiers, TIMESTAMP-SENDER-to-TARGET-NONCE, and the lists of them a receipt
    names. Agent names may contain the separator "-to-" themselves. */
module MessageIds {
  import opened Wrappers

  predicate Digit(c: char) { '0' <= c <= '9' }

  predicate AgentChar(c: char) {
    'a' <= c <= 'z' || Digit(c) || c == '#' || c == '_' || c == '-'
  }

  predicate Agent(s: string) {
    s != "" && forall c :: c in s ==> AgentChar(c)
  }

  /** Everything Python counts as white space in text. */
  predicate Space(c: char) {
    || '\t' <= c <= '\r' || '\U{1C}' <= c <= ' ' || c == '\U{85}' || c == '\U{A0}' || c == '\U{1680}'
    || '\U{2000}' <= c <= '\U{200A}' || c == '\U{2028}' || c == '\U{2029}' || c == '\U{202F}' || c == '\U{205F}' ||
       c == '\U{3000}'
  }

  const SEPARATOR := "-to-"

  predicate At(s: string, sub: string, k: nat) {
    k + |sub| <= |s| && s[k..k + |sub|] == sub
  }

  predicate Contains(s: string, sub: string) {
    exists k :: 0 <= k <= |s| && At(s, sub, k)
  }

  /** The rightmost occurrence of sub that starts before the end given. */
  function LastAt(s: string, sub: string, end: nat): (k: Option<nat>)
    ensures k.Some? ==> k.value < end && At(s, sub, k.value) && forall j :: k.value < j < end ==> !At(s, sub, j)
    ensures k.None? ==> forall j :: 0 <= j < end ==> !At(s, sub, j)
  {
    if end == 0 then None
    else if At(s, sub, end - 1) then Some(end - 1)
    else LastAt(s, sub, end - 1)
  }

  function LastDash(s: string, end: nat): (k: Option<nat>)
    requires end <= |s|
    ensures k.Some? ==> k.value < end && s[k.value] == '-' && forall j :: k.value < j < end ==> s[j] != '-'
    ensures k.None? ==> forall j :: 0 <= j < end ==> s[j] != '-'
  {
    if end == 0 then None
    else if s[end - 1] == '-' then Some(end - 1)
    else LastDash(s, end - 1)
  }

  /** Eight digits, T, six digits, Z. */
  predicate Stamp(s: string) {
    && |s| == 16 && s[8] == 'T' && s[15] == 'Z'
    && forall i :: 0 <= i < 15 && i != 8 ==> Digit(s[i])
  }

  predicate Nonce(s: string) {
    s != "" && '-' !in s
  }

  /** The part of an identifier between its timestamp and its nonce. */
  function Route(id: string): Option<string> {
    if !PathSafe(id) || |id| < 17 || !Stamp(id[..16]) || id[16] != '-' then None
    else
      var rest := id[17..];
      match LastDash(rest, |rest|)
      case None => None
      case Some(k) =>
        if Agent(rest[..k]) && Nonce(rest[k + 1..]) && Contains(rest[..k], SEPARATOR) then Some(rest[..k]) else None
  }

  function Checked(sender: string, target: string): Option<(string, string)> {
    if Agent(sender) && Agent(target) then Some((sender, target)) else None
  }

  /** The mailbox an identifier was found in says where the target begins. */
  function ParseFor(id: string, recipient: string): Option<(string, string)> {
    match Route(id)
    case None => None
    case Some(route) =>
      var suffix := SEPARATOR + recipient;
      if !Agent(recipient) || |route| < |suffix| || route[|route| - |suffix|..] != suffix then None
      else Checked(route[..|route| - |suffix|], recipient)
  }

  /** Without one, the rightmost separator does. */
  function Parse(id: string): Option<(string, string)> {
    match Route(id)
    case None => None
    case Some(route) =>
      match LastAt(route, SEPARATOR, |route|)
      case None => None
      case Some(k) => Checked(route[..k], route[k + 4..])
  }

  function Mint(stamp: string, sender: string, target: string, nonce: string): string {
    stamp + "-" + sender + SEPARATOR + target + "-" + nonce
  }

  predicate Mintable(stamp: string, sender: string, target: string, nonce: string) {
    Stamp(stamp) && Agent(sender) && Agent(target) && Nonce(nonce) && PathSafe(nonce)
  }

  lemma NonceAfterLastDash(route: string, nonce: string)
    requires Nonce(nonce)
    ensures LastDash(route + "-" + nonce, |route| + 1 + |nonce|) == Some(|route|)
  {
    var rest := route + "-" + nonce;
    assert rest[|route|] == '-';
    forall j | |route| < j < |rest|
      ensures rest[j] != '-'
    {
      assert rest[j] == nonce[j - |route| - 1];
    }
  }

  predicate PathSafe(s: string) {
    '\0' !in s && '/' !in s
  }

  lemma MintedIsPathSafe(stamp: string, sender: string, target: string, nonce: string)
    requires Mintable(stamp, sender, target, nonce)
    ensures PathSafe(Mint(stamp, sender, target, nonce))
  {
    assert PathSafe(stamp) && PathSafe(sender) && PathSafe(target) && PathSafe(nonce);
    assert PathSafe(stamp + "-" + sender);
    assert PathSafe(stamp + "-" + sender + SEPARATOR + target);
  }

  lemma RouteHasSeparator(sender: string, target: string)
    requires Agent(sender) && Agent(target)
    ensures Agent(sender + SEPARATOR + target) && Contains(sender + SEPARATOR + target, SEPARATOR)
  {
    assert At(sender + SEPARATOR + target, SEPARATOR, |sender|);
  }

  lemma MintedRoute(stamp: string, sender: string, target: string, nonce: string)
    requires Mintable(stamp, sender, target, nonce)
    ensures Route(Mint(stamp, sender, target, nonce)) == Some(sender + SEPARATOR + target)
  {
    hide Agent, Contains, PathSafe, Nonce;
    var id := Mint(stamp, sender, target, nonce);
    var route := sender + SEPARATOR + target;
    var rest := route + "-" + nonce;
    MintedIsPathSafe(stamp, sender, target, nonce);
    RouteHasSeparator(sender, target);
    assert id == stamp + "-" + rest;
    assert id[..16] == stamp && id[16] == '-' && id[17..] == rest;
    NonceAfterLastDash(route, nonce);
    assert rest[..|route|] == route && rest[|route| + 1..] == nonce;
  }

  /** With the recipient at hand, parsing a minted identifier recovers both names, whatever they contain. */
  lemma RecoversFor(stamp: string, sender: string, target: string, nonce: string)
    requires Mintable(stamp, sender, target, nonce)
    ensures ParseFor(Mint(stamp, sender, target, nonce), target) == Some((sender, target))
  {
    MintedRoute(stamp, sender, target, nonce);
    var route := sender + SEPARATOR + target;
    var suffix := SEPARATOR + target;
    assert route[|route| - |suffix|..] == suffix;
    assert route[..|route| - |suffix|] == sender;
  }

  /** With the recipient, no identifier at all yields another target, and no two routes are confused. */
  lemma ParseForIsExact(id: string, recipient: string)
    ensures ParseFor(id, recipient).Some? ==>
      ParseFor(id, recipient).value.1 == recipient
      && Route(id) == Some(ParseFor(id, recipient).value.0 + SEPARATOR + recipient)
  {
    if ParseFor(id, recipient).Some? {
      var route, suffix := Route(id).value, SEPARATOR + recipient;
      assert route[|route| - |suffix|..] == suffix;
      assert route == route[..|route| - |suffix|] + suffix;
      assert route == route[..|route| - |suffix|] + SEPARATOR + recipient;
    }
  }

  /** Without it, the names come back exactly when no later separator can be read into the target. */
  lemma RecoversAlone(stamp: string, sender: string, target: string, nonce: string)
    requires Mintable(stamp, sender, target, nonce)
    ensures Parse(Mint(stamp, sender, target, nonce)) == Some((sender, target)) <==> !Contains("-" + target, SEPARATOR)
  {
    MintedRoute(stamp, sender, target, nonce);
    var route, n := sender + SEPARATOR + target, |sender|;
    var tail := "-" + target;
    assert route[n + 3..] == tail;
    assert At(route, SEPARATOR, n);
    var last := LastAt(route, SEPARATOR, |route|).value;
    if Contains(tail, SEPARATOR) {
      var k :| 0 <= k <= |tail| && At(tail, SEPARATOR, k);
      assert route[n + 3 + k..n + 3 + k + 4] == tail[k..k + 4];
      assert At(route, SEPARATOR, n + 3 + k);
      assert last > n;
      assert |route[..last]| != |sender|;
    } else {
      forall j | n < j < |route|
        ensures !At(route, SEPARATOR, j)
      {
        if At(route, SEPARATOR, j) { LaterSeparator(sender, target, j); }
      }
      assert last == n;
      assert route[..n] == sender && route[n + 4..] == target;
    }
  }

  lemma LaterSeparator(sender: string, target: string, j: nat)
    requires j > |sender| && At(sender + SEPARATOR + target, SEPARATOR, j)
    ensures Contains("-" + target, SEPARATOR)
  {
    var route, n, tail := sender + SEPARATOR + target, |sender|, "-" + target;
    assert route[j] == route[j..j + 4][0] == '-';
    assert route[n + 1] == 't' && route[n + 2] == 'o';
    assert j >= n + 3;
    assert tail[j - n - 3..j - n + 1] == route[j..j + 4];
    assert At(tail, SEPARATOR, j - n - 3);
  }

  // ---------------------------------------------------------------- lists of references

  function Join(refs: seq<string>): string {
    if |refs| == 0 then "" else if |refs| == 1 then refs[0] else refs[0] + "," + Join(refs[1..])
  }

  function FirstComma(s: string): (k: nat)
    ensures k <= |s| && ',' !in s[..k] && (k < |s| ==> s[k] == ',')
  {
    if s == "" || s[0] == ',' then 0
    else
      var k := 1 + FirstComma(s[1..]);
      assert s[..k] == [s[0]] + s[1..][..k - 1];
      k
  }

  function Split(s: string): (parts: seq<string>)
    ensures |parts| >= 1
  {
    var k := FirstComma(s);
    if k == |s| then [s] else [s[..k]] + Split(s[k + 1..])
  }

  lemma {:induction false} SplitFirst(head: string, rest: string)
    requires ',' !in head
    ensures Split(head + "," + rest) == [head] + Split(rest)
    ensures Split(head) == [head]
  {
    var s, k := head + "," + rest, FirstComma(head + "," + rest);
    assert s[|head|] == ',';
    forall i | 0 <= i < |head|
      ensures s[i] != ','
    {
      assert s[i] == head[i];
    }
    forall i | 0 <= i < k
      ensures s[i] != ','
    {
      assert s[..k][i] == s[i];
    }
    assert s[..k] == head && s[k + 1..] == rest;
    assert FirstComma(head) == |head|;
  }

  function Commas(s: string): nat {
    if s == "" then 0 else (if s[0] == ',' then 1 else 0) + Commas(s[1..])
  }

  lemma {:induction false} CommasOf(a: string, b: string)
    ensures Commas(a + b) == Commas(a) + Commas(b)
    ensures Commas(a) == 0 <==> ',' !in a
  {
    if a == "" {
      assert a + b == b;
    } else {
      assert (a + b)[1..] == a[1..] + b;
      CommasOf(a[1..], b);
      assert a == [a[0]] + a[1..];
    }
  }

  lemma {:induction false} SplitCount(s: string)
    ensures |Split(s)| == Commas(s) + 1
    decreases |s|
  {
    var k := FirstComma(s);
    CommasOf(s[..k], s[k..]);
    assert s == s[..k] + s[k..];
    if k < |s| {
      assert s[k..][1..] == s[k + 1..];
      SplitCount(s[k + 1..]);
    }
  }

  /** A list of references survives being written and read exactly when none contains a comma. */
  lemma {:induction false} RefsSurvive(refs: seq<string>)
    requires |refs| > 0
    ensures Split(Join(refs)) == refs <==> forall r :: r in refs ==> ',' !in r
    ensures Commas(Join(refs)) >= |refs| - 1
    ensures Commas(Join(refs)) == |refs| - 1 <==> forall r :: r in refs ==> ',' !in r
  {
    SplitCount(Join(refs));
    assert refs == [refs[0]] + refs[1..];
    CommasOf(refs[0], "," + Join(refs[1..]));
    CommasOf(",", Join(refs[1..]));
    if |refs| == 1 {
      CommasOf(refs[0], "");
      if ',' !in refs[0] { SplitFirst(refs[0], ""); }
    } else {
      RefsSurvive(refs[1..]);
      assert Join(refs) == refs[0] + ("," + Join(refs[1..]));
      if ',' !in refs[0] {
        SplitFirst(refs[0], Join(refs[1..]));
        assert Join(refs) == refs[0] + "," + Join(refs[1..]);
      }
    }
  }

  // ---------------------------------------------------------------- what a receipt says

  /** The length of the text up to the first white space. */
  function WordEnd(s: string): (k: nat)
    ensures k <= |s| && (k < |s| ==> Space(s[k]))
    ensures forall i :: 0 <= i < k ==> !Space(s[i])
  {
    if s == "" || Space(s[0]) then 0 else 1 + WordEnd(s[1..])
  }

  const REFS := "refs="

  /** The references a receipt's body opens with. */
  function RefsOf(body: string): seq<string> {
    if |body| < 5 || body[..5] != REFS || WordEnd(body[5..]) == 0 then []
    else Split(body[5..5 + WordEnd(body[5..])])
  }

  function ReceiptBody(refs: seq<string>, note: string): string {
    REFS + Join(refs) + if note == "" then "" else " " + note
  }

  /** A reference that can be listed: what every minted identifier is. */
  predicate Listable(ref: string) {
    ref != "" && ',' !in ref && forall c :: c in ref ==> !Space(c)
  }

  lemma {:induction false} JoinHasNoSpace(refs: seq<string>)
    requires |refs| > 0 && forall r :: r in refs ==> r != "" && forall c :: c in r ==> !Space(c)
    ensures Join(refs) != "" && forall c :: c in Join(refs) ==> !Space(c)
  {
    assert refs[0] in refs;
    if |refs| > 1 {
      assert forall r :: r in refs[1..] ==> r in refs;
      JoinHasNoSpace(refs[1..]);
    }
  }

  /** The references a receipt was written for are the ones read back from it, whatever the note says. */
  lemma RefsReadBack(refs: seq<string>, note: string)
    requires |refs| > 0 && forall r :: r in refs ==> Listable(r)
    ensures RefsOf(ReceiptBody(refs, note)) == refs
  {
    RefsSurvive(refs);
    JoinHasNoSpace(refs);
    var body, joined := ReceiptBody(refs, note), Join(refs);
    assert body[..5] == REFS;
    var text := body[5..];
    assert text == joined + if note == "" then "" else " " + note;
    forall i | 0 <= i < |joined|
      ensures !Space(text[i])
    {
      assert text[i] == joined[i];
    }
    assert |joined| < |text| ==> text[|joined|] == ' ';
    assert WordEnd(text) == |joined|;
    assert body[5..5 + |joined|] == joined;
  }

  lemma MintedIsListable(stamp: string, sender: string, target: string, nonce: string)
    requires Mintable(stamp, sender, target, nonce) && Listable(nonce)
    ensures Listable(Mint(stamp, sender, target, nonce))
  {
    assert Listable(stamp) by {
      forall c | c in stamp ensures !Space(c) && c != ',' { }
    }
    assert Listable(sender) && Listable(target);
    assert Listable(stamp + "-" + sender);
    assert Listable(stamp + "-" + sender + SEPARATOR + target);
  }

  /** A nonce may hold a comma, and then the receipt does not name the message it was written for. */
  lemma CommaNonceIsLost(stamp: string, sender: string, target: string, note: string)
    requires Mintable(stamp, sender, target, "a,b")
    ensures
      var ref := Mint(stamp, sender, target, "a,b");
      ParseFor(ref, target) == Some((sender, target)) && ref !in RefsOf(ReceiptBody([ref], note))
  {
    var ref := Mint(stamp, sender, target, "a,b");
    RecoversFor(stamp, sender, target, "a,b");
    var refs := RefsOf(ReceiptBody([ref], note));
    PartsHaveNoComma(ReceiptBody([ref], note)[5..5 + WordEnd(ReceiptBody([ref], note)[5..])]);
    assert ref[|ref| - 2] == ',';
  }

  lemma {:induction false} PartsHaveNoComma(s: string)
    ensures forall part :: part in Split(s) ==> ',' !in part
    decreases |s|
  {
    var k := FirstComma(s);
    if k < |s| { PartsHaveNoComma(s[k + 1..]); }
  }
}

/** How FETCH and SEARCH results are printed, and a client that reads them back by the rules of
    section 4.3 of RFC 3501: a line ending in {n} announces a literal of exactly n bytes. */
module FetchFormat {
  import opened Text
  import opened Storage

  // ---- The printer ----

  /** Which data items a FETCH asks for. */
  datatype Wants = Wants(flags: bool, uid: bool, size: bool, body: bool)

  function WantsOf(items: string): Wants {
    Wants(Contains(items, "FLAGS"), Contains(items, "UID"), Contains(items, "RFC822.SIZE"),
          Contains(items, "BODY[]") || Contains(items, "RFC822"))
  }

  const BLANKS: set<char> := {' '}

  const CRLF := "\r\n"

  const PLACEHOLDER := "(message body unavailable)"

  function FlagsItem(flags: string): string { "FLAGS (" + flags + ")" }

  function UidItem(uid: nat): string { "UID " + Dec(uid) }

  function SizeItem(size: nat): string { "RFC822.SIZE " + Dec(size) }

  /** An item, if it is wanted, and a blank. */
  function Item(wanted: bool, text: string): string {
    if wanted then text + " " else ""
  }

  /** The items of fixed form. */
  function Items(m: Message, wants: Wants): string {
    Item(wants.flags, FlagsItem(m.flags)) + Item(wants.uid, UidItem(m.uid)) + Item(wants.size, SizeItem(m.sizeBytes))
  }

  function Attributes(number: nat, m: Message, wants: Wants): string {
    Dec(number) + " FETCH (" + Items(m, wants)
  }

  function Announce(length: nat): string {
    "BODY[] {" + Dec(length) + "}"
  }

  /** The printed body: the cached one, or the placeholder. */
  function Shown(body: Option<string>): string {
    if body.Some? then body.value else PLACEHOLDER
  }

  function BodyItem(body: string): string {
    Announce(|body|) + CRLF + body + " "
  }

  /** One FETCH response after "* ": the items, trailing blanks trimmed, and a closing parenthesis. */
  function FetchText(number: nat, m: Message, wants: Wants, body: Option<string>): string {
    TrimRight(Attributes(number, m, wants) + (if wants.body then BodyItem(Shown(body)) else ""), BLANKS) + ")"
  }

  function SearchText(count: nat): string {
    "SEARCH " + Join(Numbers(count), ' ')
  }

  function Numbers(count: nat): (r: seq<string>)
    ensures |r| == count && forall i | 0 <= i < count :: r[i] == Dec(i + 1)
  {
    if count == 0 then [] else Numbers(count - 1) + [Dec(count)]
  }

  // ---- The client ----

  /** The first CRLF at or after `i`, or the length of `s`. */
  function CrlfFrom(s: string, i: nat): (j: nat)
    requires i <= |s|
    ensures i <= j <= |s|
    ensures j < |s| ==> j + 1 < |s| && s[j] == '\r' && s[j + 1] == '\n'
    decreases |s| - i
  {
    if i + 1 >= |s| then |s| else if s[i] == '\r' && s[i + 1] == '\n' then i else CrlfFrom(s, i + 1)
  }

  /** Where the run of digits ending at `n` starts. */
  function DigitsStart(s: string, n: nat): (k: nat)
    requires n <= |s|
    ensures k <= n && forall i | k <= i < n :: IsDigit(s[i])
  {
    if n > 0 && IsDigit(s[n - 1]) then DigitsStart(s, n - 1) else n
  }

  /** The length a line announces: it ends in {n}. */
  function Announced(line: string): Option<nat> {
    if |line| < 3 || line[|line| - 1] != '}' then None else
      var end := |line| - 1;
      var start := DigitsStart(line, end);
      if 0 < start < end && line[start - 1] == '{' then Some(ParseDec(line[start..end])) else None
  }

  datatype Piece = Chars(text: string) | Literal(bytes: string)

  /** Reads one response from a stream: lines and announced literals up to a line that announces none. */
  function ReadResponse(s: string): Option<(seq<Piece>, string)>
    decreases |s|, 0
  {
    var i := CrlfFrom(s, 0);
    if i == |s| then None else ReadAfter(s[..i], s[i + 2..])
  }

  /** ... when `line` has been read. */
  function ReadAfter(line: string, rest: string): Option<(seq<Piece>, string)>
    decreases |rest|, 1
  {
    match Announced(line)
    case None => Some(([Chars(line)], rest))
    case Some(n) =>
      if |rest| < n then None else
        match ReadResponse(rest[n..])
        case None => None
        case Some(more) => Some(([Chars(line), Literal(rest[..n])] + more.0, more.1))
  }

  // ---- Reading back what was printed ----

  lemma {:induction false} CrlfSkips(s: string, i: nat, j: nat)
    requires i <= j && j + 1 < |s| && s[j] == '\r' && s[j + 1] == '\n'
    requires forall k | i < k <= j :: s[k] != '\n'
    ensures CrlfFrom(s, i) == j
    decreases j - i
  {
    if i < j {
      CrlfSkips(s, i + 1, j);
    }
  }

  lemma {:induction false} DigitsStartAt(s: string, n: nat, k: nat)
    requires 0 < k <= n <= |s| && !IsDigit(s[k - 1]) && forall i | k <= i < n :: IsDigit(s[i])
    ensures DigitsStart(s, n) == k
    decreases n - k
  {
    if n > k {
      DigitsStartAt(s, n - 1, k);
    }
  }

  /** An announcement is understood, whatever stands before it on the line. */
  lemma AnnouncedBack(before: string, length: nat)
    ensures Announced(before + Announce(length)) == Some(length)
  {
    var digits := Dec(length);
    var line := before + Announce(length);
    var start := |before| + 8;
    assert line[start - 1] == '{' && line[|line| - 1] == '}';
    assert line[start..|line| - 1] == digits;
    forall i | start <= i < |line| - 1 ensures IsDigit(line[i]) {
      assert line[i] == digits[i - start];
    }
    DigitsStartAt(line, |line| - 1, start);
    DecRoundTrip(length);
  }

  lemma ReadLine(line: string, rest: string)
    requires Lacks(line, '\n')
    ensures ReadResponse(line + CRLF + rest) == ReadAfter(line, rest)
  {
    var s := line + CRLF + rest;
    assert forall k | 0 <= k <= |line| :: s[k] == if k < |line| then line[k] else '\r';
    CrlfSkips(s, 0, |line|);
    assert s[..|line|] == line && s[|line| + 2..] == rest;
  }

  /** Trimming reaches back into the body but not past its announcement. */
  lemma TrimBehind(head: string, body: string)
    requires head != "" && head[|head| - 1] !in BLANKS
    ensures TrimRight(head + body + " ", BLANKS) == head + TrimRight(body, BLANKS)
  {
    var s, kept := head + body + " ", Kept(body, |body|, BLANKS);
    var k := |head| + kept;
    assert s[k - 1] == if kept == 0 then head[|head| - 1] else body[kept - 1];
    forall i | k <= i < |s| ensures s[i] in BLANKS {
      assert s[i] == if i < |s| - 1 then body[i - |head|] else ' ';
    }
    KeptIs(s, |s|, BLANKS, k);
    assert s[..k] == head + body[..kept];
  }

  predicate EndsBlank(body: string) {
    body != "" && body[|body| - 1] == ' '
  }

  lemma TrimWhole(body: string)
    ensures if EndsBlank(body) then |TrimRight(body, BLANKS)| < |body| && body[|TrimRight(body, BLANKS)|] == ' '
            else TrimRight(body, BLANKS) == body
  {
  }

  /** The line of a response with a body up to and including the announcement. */
  function Head(number: nat, m: Message, wants: Wants, length: nat): string {
    "* " + Attributes(number, m, wants) + Announce(length)
  }

  lemma DigitsLackFeed(s: string)
    requires AllDigits(s)
    ensures Lacks(s, '\n')
  {
  }

  lemma LacksPlus(a: string, b: string, c: char)
    requires Lacks(a, c) && Lacks(b, c)
    ensures Lacks(a + b, c)
  {
  }

  lemma ItemLacksFeed(wanted: bool, text: string)
    requires Lacks(text, '\n')
    ensures Lacks(Item(wanted, text), '\n')
  {
  }

  lemma ItemsLackFeed(m: Message, wants: Wants)
    requires Lacks(m.flags, '\n')
    ensures Lacks(Items(m, wants), '\n')
  {
    DigitsLackFeed(Dec(m.uid));
    DigitsLackFeed(Dec(m.sizeBytes));
    var flags, uid := Item(wants.flags, FlagsItem(m.flags)), Item(wants.uid, UidItem(m.uid));
    ItemLacksFeed(wants.flags, FlagsItem(m.flags));
    ItemLacksFeed(wants.uid, UidItem(m.uid));
    ItemLacksFeed(wants.size, SizeItem(m.sizeBytes));
    LacksPlus(flags, uid, '\n');
    LacksPlus(flags + uid, Item(wants.size, SizeItem(m.sizeBytes)), '\n');
  }

  lemma HeadFacts(number: nat, m: Message, wants: Wants, length: nat)
    requires Lacks(m.flags, '\n')
    ensures Lacks(Head(number, m, wants, length), '\n')
    ensures Announced(Head(number, m, wants, length)) == Some(length)
  {
    var start := Dec(number) + " FETCH (";
    DigitsLackFeed(Dec(number));
    LacksPlus(Dec(number), " FETCH (", '\n');
    ItemsLackFeed(m, wants);
    LacksPlus(start, Items(m, wants), '\n');
    DigitsLackFeed(Dec(length));
    LacksPlus("BODY[] {", Dec(length), '\n');
    LacksPlus("BODY[] {" + Dec(length), "}", '\n');
    LacksPlus("* ", Attributes(number, m, wants), '\n');
    LacksPlus("* " + Attributes(number, m, wants), Announce(length), '\n');
    AnnouncedBack("* " + Attributes(number, m, wants), length);
  }

  /** The shape of a response with a body on the wire, for any strings in its places. */
  lemma WireShape(star: string, attributes: string, announce: string, body: string)
    ensures star + (TrimRight(attributes + (announce + CRLF + body + " "), BLANKS) + ")")
            == star + attributes + announce + CRLF + (TrimRight(body, BLANKS) + ")")
  {
    var head := attributes + announce + CRLF;
    assert attributes + (announce + CRLF + body + " ") == head + body + " ";
    TrimBehind(head, body);
    assert star + (head + TrimRight(body, BLANKS) + ")")
           == star + attributes + announce + CRLF + (TrimRight(body, BLANKS) + ")");
  }

  lemma ShiftParen(before: string, kept: string, rest: string)
    ensures before + (kept + ")") + CRLF + rest == before + (kept + ")" + CRLF + rest)
  {
  }

  /** The client reads back the items, the very bytes of the body, and stays in step with the stream, exactly when
      the printed body does not end in a blank. */
  lemma FetchReadBack(number: nat, m: Message, wants: Wants, body: Option<string>, rest: string)
    requires wants.body && Lacks(m.flags, '\n')
    ensures var b := Shown(body);
            ReadResponse("* " + FetchText(number, m, wants, body) + CRLF + rest)
              == Some(([Chars(Head(number, m, wants, |b|)), Literal(b), Chars(")")], rest))
            <==> !EndsBlank(b)
    ensures Shown(body) == if body.Some? then body.value else "(message body unavailable)"
  {
    var b := Shown(body);
    var attributes, announce := Attributes(number, m, wants), Announce(|b|);
    HeadFacts(number, m, wants, |b|);
    WireShape("* ", attributes, announce, b);
    ReadBody("* " + attributes + announce, b, rest);
  }

  lemma ReadBody(head: string, b: string, rest: string)
    requires Lacks(head, '\n') && Announced(head) == Some(|b|)
    ensures ReadResponse(head + CRLF + (TrimRight(b, BLANKS) + ")") + CRLF + rest)
              == Some(([Chars(head), Literal(b), Chars(")")], rest))
            <==> !EndsBlank(b)
  {
    var kept := TrimRight(b, BLANKS);
    ShiftParen(head + CRLF, kept, rest);
    ReadLine(head, kept + ")" + CRLF + rest);
    TrimWhole(b);
    if EndsBlank(b) {
      Misread(head, b, kept, kept + ")" + CRLF + rest);
    } else {
      ReadWhole(head, b, rest);
    }
  }

  lemma ReadWhole(head: string, b: string, rest: string)
    requires Announced(head) == Some(|b|)
    ensures ReadAfter(head, b + ")" + CRLF + rest) == Some(([Chars(head), Literal(b), Chars(")")], rest))
  {
    var after := b + ")" + CRLF + rest;
    assert after[..|b|] == b && after[|b|..] == ")" + CRLF + rest;
    ReadParen(rest);
    assert [Chars(head), Literal(b)] + [Chars(")")] == [Chars(head), Literal(b), Chars(")")];
  }

  lemma ReadParen(rest: string)
    ensures ReadResponse(")" + CRLF + rest) == Some(([Chars(")")], rest))
  {
    ReadLine(")", rest);
  }

  /** A literal one byte of which differs is not the body. */
  lemma Misread(head: string, b: string, kept: string, after: string)
    requires Announced(head) == Some(|b|)
    requires |kept| < |b| && b[|kept|] == ' ' && |kept| < |after| && after[|kept|] == ')'
    ensures ReadAfter(head, after).Some? ==>
              |ReadAfter(head, after).value.0| > 1 && ReadAfter(head, after).value.0[1] != Literal(b)
  {
    if |b| <= |after| && ReadResponse(after[|b|..]).Some? {
      var more := ReadResponse(after[|b|..]).value;
      assert after[..|b|][|kept|] == ')';
      assert ([Chars(head), Literal(after[..|b|])] + more.0)[1] == Literal(after[..|b|]);
    }
  }

  // ---- Responses in a row ----

  /** The bytes of the responses from number `i` on. */
  function Stream(wires: seq<string>, i: nat): string
    requires i <= |wires|
    decreases |wires| - i
  {
    if i == |wires| then "" else wires[i] + Stream(wires, i + 1)
  }

  /** One response and what is left of the stream. */
  type Reader = string -> Option<(seq<Piece>, string)>

  /** Reads `n` responses. */
  function ReadMany(read: Reader, s: string, n: nat): Option<(seq<seq<Piece>>, string)>
    decreases n
  {
    if n == 0 then Some(([], s)) else
      match read(s)
      case None => None
      case Some(first) =>
        match ReadMany(read, first.1, n - 1)
        case None => None
        case Some(more) => Some(([first.0] + more.0, more.1))
  }

  ghost predicate ReadsAs(read: Reader, wire: string, pieces: seq<Piece>) {
    forall rest :: read(wire + rest) == Some((pieces, rest))
  }

  /** Responses that can be read one by one can be read in a row. */
  lemma {:induction false} ReadRow(read: Reader, wires: seq<string>, expected: seq<seq<Piece>>, i: nat)
    requires i <= |expected| <= |wires| && forall k | 0 <= k < |expected| :: ReadsAs(read, wires[k], expected[k])
    ensures ReadMany(read, Stream(wires, i), |expected| - i) == Some((expected[i..], Stream(wires, |expected|)))
    decreases |expected| - i
  {
    if i < |expected| {
      ReadRow(read, wires, expected, i + 1);
      assert ReadsAs(read, wires[i], expected[i]);
      assert read(wires[i] + Stream(wires, i + 1)) == Some((expected[i], Stream(wires, i + 1)));
      assert [expected[i]] + expected[i + 1..] == expected[i..];
    }
  }

  // ---- Responses without a literal ----

  /** A text that makes one line and announces nothing. */
  predicate Plain(s: string) {
    s != "" && s[|s| - 1] != '}' && Lacks(s, '\n')
  }

  lemma PlainPlus(a: string, b: string)
    requires Lacks(a, '\n') && Plain(b)
    ensures Plain(a + b)
  {
  }

  /** The client reads a plain line as one response. */
  lemma ReadPlain(text: string, rest: string)
    requires Plain(text)
    ensures ReadResponse(text + CRLF + rest) == Some(([Chars(text)], rest))
  {
    ReadLine(text, rest);
  }

  /** A FETCH response without a body is plain. */
  lemma FetchPlain(number: nat, m: Message, wants: Wants, body: Option<string>)
    requires !wants.body && Lacks(m.flags, '\n')
    ensures Plain(FetchText(number, m, wants, body))
  {
    var start := Dec(number) + " FETCH (";
    DigitsLackFeed(Dec(number));
    LacksPlus(Dec(number), " FETCH (", '\n');
    ItemsLackFeed(m, wants);
    LacksPlus(start, Items(m, wants), '\n');
    assert Attributes(number, m, wants) + "" == Attributes(number, m, wants);
    PlainPlus(TrimRight(Attributes(number, m, wants), BLANKS), ")");
  }

  lemma {:induction false} JoinLacks(parts: seq<string>, sep: char, c: char)
    requires sep != c && forall i | 0 <= i < |parts| :: Lacks(parts[i], c)
    ensures Lacks(Join(parts, sep), c)
  {
    if |parts| > 1 {
      JoinLacks(parts[1..], sep, c);
      LacksPlus(parts[0], [sep], c);
      LacksPlus(parts[0] + [sep], Join(parts[1..], sep), c);
    }
  }

  /** The last character of joined parts is that of the last part. */
  lemma {:induction false} JoinEnds(parts: seq<string>, sep: char)
    requires |parts| > 0 && parts[|parts| - 1] != ""
    ensures var joined, last := Join(parts, sep), parts[|parts| - 1];
            joined != "" && joined[|joined| - 1] == last[|last| - 1]
  {
    if |parts| > 1 {
      JoinEnds(parts[1..], sep);
    }
  }

  lemma SearchPlain(count: nat)
    ensures Plain(SearchText(count))
  {
    var numbers := Numbers(count);
    var joined := Join(numbers, ' ');
    forall i | 0 <= i < count ensures Lacks(numbers[i], '\n') {
      DigitsLackFeed(Dec(i + 1));
    }
    JoinLacks(numbers, ' ', '\n');
    LacksPlus("SEARCH ", joined, '\n');
    if count == 0 {
      assert SearchText(0) == "SEARCH ";
    } else {
      JoinEnds(numbers, ' ');
      var last := Dec(count);
      assert IsDigit(last[|last| - 1]);
      PlainPlus("SEARCH ", joined);
    }
  }

  // ---- Sequence numbers ----

  /** The number a response starts with. */
  function LeadingNumber(text: string): Option<nat> {
    var digits := text[..IndexOf(text, ' ')];
    if AllDigits(digits) then Some(ParseDec(digits)) else None
  }

  /** The message numbers of a SEARCH response. */
  function SearchNumbers(text: string): seq<string> {
    if |text| <= 7 then [] else Split(text[7..], ' ')
  }

  /** Trimming does not reach back past a parenthesis. */
  lemma TrimAfterParen(start: string, more: string)
    ensures start + " FETCH (" <= TrimRight(start + " FETCH (" + more, BLANKS)
  {
    var s := start + " FETCH (" + more;
    var k := |start + " FETCH ("|;
    assert s[k - 1] == '(';
    assert Kept(s, |s|, BLANKS) >= k;
    assert s[..k] == start + " FETCH (";
  }

  lemma AttributesStart(number: nat, m: Message, wants: Wants, body: Option<string>)
    ensures Dec(number) + " FETCH (" <= FetchText(number, m, wants, body)
  {
    var more := if wants.body then BodyItem(Shown(body)) else "";
    Regroup(Dec(number) + " FETCH (", Items(m, wants), more);
    TrimAfterParen(Dec(number), Items(m, wants) + more);
  }

  /** The i-th FETCH response bears number i+1 ... */
  lemma FetchNumbered(number: nat, m: Message, wants: Wants, body: Option<string>)
    ensures LeadingNumber(FetchText(number, m, wants, body)) == Some(number)
  {
    var text, digits := FetchText(number, m, wants, body), Dec(number);
    AttributesStart(number, m, wants, body);
    assert forall i | 0 <= i < |digits| :: text[i] == digits[i];
    assert text[|digits|] == ' ';
    IndexOfUnique(text, ' ', |digits|);
    assert text[..|digits|] == digits;
    DecRoundTrip(number);
  }

  /** ... and SEARCH lists 1..n in the same writing. */
  lemma SearchNumbered(count: nat)
    ensures SearchNumbers(SearchText(count)) == Numbers(count)
  {
    var joined := Join(Numbers(count), ' ');
    assert SearchText(count)[7..] == joined;
    if count > 0 {
      forall i | 0 <= i < count ensures Lacks(Numbers(count)[i], ' ') {
        assert AllDigits(Dec(i + 1));
      }
      assert Numbers(count)[0] != "";
      SplitJoin(Numbers(count), ' ');
    }
  }
}

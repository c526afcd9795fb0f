/** A client in step with the server: the whole byte stream of an IMAP session is read as exactly the responses sent. */
module SessionStream {
  import opened Text
  import opened Storage
  import opened FetchFormat
  import opened FetchItems
  import opened Imap
  import opened ImapWording
  import opened MailSystem
  import Sessions = ImapRuns

  /** A completed FETCH that shows bodies. */
  predicate ShowsBodies(e: Exchange) {
    && e.req.verb == FETCH && Sessions.Completed(e) && e.req.args.Items? && e.req.args.wants.body
    && |e.calls| > 0 && e.calls[0].ListCall? && e.calls[0].listing.Some?
  }

  /** What a client should read as response `i` of an exchange: the message with its body as a literal, or one line. */
  function Pieces(e: Exchange, i: nat): seq<Piece>
    requires i < |e.lines|
  {
    if ShowsBodies(e) && i < |e.calls[0].listing.value| then Expected(e, i) else [Chars(e.lines[i].Text())]
  }

  function AllPieces(e: Exchange): seq<seq<Piece>> {
    seq(|e.lines|, i requires 0 <= i < |e.lines| => Pieces(e, i))
  }

  /** The results of the exchanges of a session, one after the other. */
  function Gather<T>(log: seq<Exchange>, f: Exchange -> seq<T>): seq<T> {
    if log == [] then [] else f(log[0]) + Gather(log[1..], f)
  }

  function Mapped(lines: seq<Line>, wire: Line -> string): seq<string> {
    seq(|lines|, i requires 0 <= i < |lines| => wire(lines[i]))
  }

  function WireOf(line: Line): string {
    line.Wire()
  }

  /** The bytes of each response. */
  function WiresOf(lines: seq<Line>): seq<string> {
    Mapped(lines, WireOf)
  }

  // ---- Every response is read as it was sent ----

  lemma PlainReads(line: Line)
    requires Plain(line.Text())
    ensures ReadsAs(ReadResponse, line.Wire(), [Chars(line.Text())])
  {
    forall rest ensures ReadResponse(line.Wire() + rest) == Some(([Chars(line.Text())], rest)) {
      ReadPlain(line.Text(), rest);
    }
  }

  lemma TaggedReads(line: Line)
    requires line.Tagged? && Lacks(line.tag, '\n')
    ensures ReadsAs(ReadResponse, line.Wire(), [Chars(line.Text())])
  {
    TaggedPlain(line.tag, line.status, line.saying);
    PlainReads(line);
  }

  lemma NoteReads(line: Line)
    requires line.Untagged? && !line.note.Data? && (line.note.Greeting? ==> Lacks(line.note.domain, '\n'))
    ensures ReadsAs(ReadResponse, line.Wire(), [Chars(line.Text())])
  {
    NotePlain(line.note);
    UntaggedPlain(line.note);
    PlainReads(line);
  }

  lemma DataReads(text: string)
    requires Plain(text)
    ensures var line := Untagged(Data(text)); ReadsAs(ReadResponse, line.Wire(), [Chars(line.Text())])
  {
    UntaggedPlain(Data(text));
    PlainReads(Untagged(Data(text)));
  }

  /** A message listed has no flags with a line feed: it has none. */
  lemma ListedUnflagged(world: World, r: Sessions.Reading, e: Exchange, i: nat)
    requires Legal(world) && HonestExchange(world, e) && Sessions.FetchSound(r, e) && e.req.verb == FETCH
             && Sessions.Completed(e)
    requires i < |e.calls[0].listing.value|
    ensures e.calls[0].listing.value[i].flags == ""
  {
    assert Honest(world, e.calls[0]);
    var w := ListedWritten(world, e.calls[0].mailbox, e.calls[0].listing.value, i);
    WrittenStays(world, e.calls[0].listing.value[i], w);
  }

  /** Nothing in the messages of a FETCH gets in the way of reading them: no flags, and no body that ends in a blank. */
  ghost predicate Unharmed(e: Exchange) {
    ShownBy(e) ==> forall i | 0 <= i < |e.calls[0].listing.value| :: UnharmedAt(e, i)
  }

  /** A completed FETCH with its listing. */
  predicate ShownBy(e: Exchange) {
    && e.req.verb == FETCH && Sessions.Completed(e) && e.req.args.Items?
    && |e.calls| > 0 && e.calls[0].ListCall? && e.calls[0].listing.Some?
  }

  ghost predicate UnharmedAt(e: Exchange, i: nat)
    requires ShownBy(e) && i < |e.calls[0].listing.value|
  {
    && e.calls[0].listing.value[i].flags == ""
    && (e.req.args.wants.body ==> !EndsBlank(Shown(Sessions.BodyCalled(e, e.req.args.wants, i))))
  }

  lemma AllUnharmed(world: World, r: Sessions.Reading, e: Exchange)
    requires Legal(world) && Fed(world) && HonestExchange(world, e) && Sessions.FetchSound(r, e)
    ensures Unharmed(e)
  {
    if ShownBy(e) {
      forall i | 0 <= i < |e.calls[0].listing.value| ensures UnharmedAt(e, i) {
        ListedUnflagged(world, r, e, i);
        if e.req.args.wants.body {
          ShownUnharmed(world, r, e, i);
        }
      }
    }
  }

  lemma BodyLineReads(e: Exchange, i: nat)
    requires ShownBy(e) && e.req.args.wants.body && i < |e.calls[0].listing.value| && UnharmedAt(e, i)
    requires Sessions.Printed(e, e.calls[0].listing.value, e.req.args.wants)
    ensures ReadsAs(ReadResponse, e.lines[i].Wire(), Expected(e, i))
  {
    forall rest ensures ReadResponse(e.lines[i].Wire() + rest) == Some((Expected(e, i), rest)) {
      PrintedReadable(e, i, rest);
    }
  }

  /** A FETCH response, with a body or without. */
  lemma FetchLineReads(r: Sessions.Reading, e: Exchange, i: nat)
    requires Sessions.FetchSound(r, e) && e.req.verb == FETCH && Sessions.Completed(e) && i < |e.lines| - 1
             && Unharmed(e)
    ensures ReadsAs(ReadResponse, e.lines[i].Wire(), Pieces(e, i))
  {
    var m, wants := e.calls[0].listing.value[i], e.req.args.wants;
    assert UnharmedAt(e, i);
    if wants.body {
      BodyLineReads(e, i);
    } else {
      assert Sessions.PrintedAt(e, m, wants, i);
      FetchPlain(i + 1, m, wants, None);
      DataReads(FetchText(i + 1, m, wants, None));
    }
  }

  lemma SearchLineReads(r: Sessions.Reading, e: Exchange)
    requires Sessions.SearchSound(r, e) && e.req.verb == SEARCH && Sessions.Completed(e)
    ensures ReadsAs(ReadResponse, e.lines[0].Wire(), Pieces(e, 0))
  {
    SearchPlain(|e.calls[0].listing.value|);
    DataReads(SearchText(|e.calls[0].listing.value|));
  }

  /** All but the messages of a FETCH with bodies should be read as one line. */
  lemma OnePiece(r: Sessions.Reading, e: Exchange, i: nat)
    requires i < |e.lines| && Sessions.FetchSound(r, e) && (e.lines[i].Untagged? ==> !e.lines[i].note.Data?)
    ensures Pieces(e, i) == [Chars(e.lines[i].Text())]
  {
  }

  lemma OtherLineReads(r: Sessions.Reading, e: Exchange, i: nat)
    requires i < |e.lines| && Sessions.FetchSound(r, e)
    requires if e.lines[i].Tagged? then Lacks(e.lines[i].tag, '\n')
             else !e.lines[i].note.Data? && !e.lines[i].note.Greeting?
    ensures ReadsAs(ReadResponse, e.lines[i].Wire(), Pieces(e, i))
  {
    OnePiece(r, e, i);
    if e.lines[i].Tagged? {
      TaggedReads(e.lines[i]);
    } else {
      NoteReads(e.lines[i]);
    }
  }

  lemma DataLineReads(r: Sessions.Reading, e: Exchange, i: nat)
    requires i < |e.lines| - 1 && Sessions.Completed(e) && (e.req.verb == FETCH || e.req.verb == SEARCH) && Unharmed(e)
    requires Sessions.FetchSound(r, e) && Sessions.SearchSound(r, e)
    ensures ReadsAs(ReadResponse, e.lines[i].Wire(), Pieces(e, i))
  {
    if e.req.verb == FETCH {
      FetchLineReads(r, e, i);
    } else {
      SearchLineReads(r, e);
    }
  }

  lemma LineReads(r: Sessions.Reading, e: Exchange, i: nat)
    requires Unharmed(e) && i < |e.lines| && Lacks(e.req.tag, '\n')
    requires Sessions.Replied(e) && Sessions.FetchSound(r, e) && Sessions.SearchSound(r, e) && Sessions.Noted(e)
    ensures ReadsAs(ReadResponse, e.lines[i].Wire(), Pieces(e, i))
  {
    if e.lines[i].Tagged? || !e.lines[i].note.Data? {
      OtherLineReads(r, e, i);
    } else {
      DataLineReads(r, e, i);
    }
  }

  // ---- The items of a response ----

  /** From each response to a completed FETCH a client reads the flags, the UID and the size of the message as stored,
      each exactly if the command asked for it. */
  lemma ItemsShown(world: World, log: seq<Exchange>, n: nat, i: nat)
    requires Legal(world) && SessionLog(log) && HonestLog(world, log) && n < |log|
    requires log[n].req.verb == FETCH && Sessions.Completed(log[n]) && i < |log[n].lines| - 1
    ensures var e := log[n];
            && e.req.args.Items? && |e.calls| > 0 && e.calls[0].ListCall? && e.calls[0].listing.Some?
            && i < |e.calls[0].listing.value| && e.lines[i].Untagged?
            && ReadAttributes(NoteText(e.lines[i].note)) == Some(Told(e.calls[0].listing.value[i], e.req.args.wants))
  {
    SessionGood(log);
    assert Sessions.GoodAt(log, n) && HonestExchange(world, log[n]);
    ItemsRead(world, Sessions.Scan(log[..n]), log[n], i);
  }

  lemma ItemsRead(world: World, r: Sessions.Reading, e: Exchange, i: nat)
    requires Legal(world) && HonestExchange(world, e) && Sessions.FetchSound(r, e) && e.req.verb == FETCH
             && Sessions.Completed(e) && i < |e.lines| - 1
    ensures e.lines[i].Untagged?
    ensures ReadAttributes(NoteText(e.lines[i].note)) == Some(Told(e.calls[0].listing.value[i], e.req.args.wants))
  {
    var m, wants := e.calls[0].listing.value[i], e.req.args.wants;
    ListedUnflagged(world, r, e, i);
    assert Sessions.PrintedAt(e, m, wants, i);
    AttributesRead(i + 1, m, wants, Sessions.BodyCalled(e, wants, i));
    Sessions.DataText(FetchText(i + 1, m, wants, Sessions.BodyCalled(e, wants, i)));
  }

  // ---- The whole stream ----

  /** Each response is read as the pieces beside it. */
  ghost predicate RowReads(read: Reader, wires: seq<string>, pieces: seq<seq<Piece>>) {
    |wires| == |pieces| && forall k | 0 <= k < |wires| :: ReadsAs(read, wires[k], pieces[k])
  }

  lemma RowPlus(read: Reader, a: seq<string>, p: seq<seq<Piece>>, b: seq<string>, q: seq<seq<Piece>>)
    requires RowReads(read, a, p) && RowReads(read, b, q)
    ensures RowReads(read, a + b, p + q)
  {
  }

  lemma RowRead(read: Reader, wires: seq<string>, pieces: seq<seq<Piece>>)
    requires RowReads(read, wires, pieces)
    ensures ReadMany(read, Stream(wires, 0), |wires|) == Some((pieces, ""))
  {
    ReadRow(read, wires, pieces, 0);
    assert pieces[0..] == pieces;
  }

  /** Every response of an exchange is read as it was sent. */
  lemma ExchangeReads(r: Sessions.Reading, e: Exchange)
    requires Sessions.Good(r, e) && Sessions.Parsed(e.req) && Sessions.Noted(e) && Unharmed(e)
    ensures RowReads(ReadResponse, WiresOf(e.lines), AllPieces(e))
  {
    Sessions.TagIsWord(e.req);
    forall i | 0 <= i < |e.lines| ensures ReadsAs(ReadResponse, WireOf(e.lines[i]), Pieces(e, i)) {
      LineReads(r, e, i);
    }
  }

  function EachMapped(wire: Line -> string): Exchange -> seq<string> {
    (e: Exchange) => Mapped(e.lines, wire)
  }

  lemma {:induction false} MapGathers(log: seq<Exchange>, wire: Line -> string)
    ensures Mapped(Lines(log), wire) == Gather(log, EachMapped(wire))
  {
    if log != [] {
      var f := EachMapped(wire);
      MapGathers(log[1..], wire);
      assert Mapped(log[0].lines + Lines(log[1..]), wire) == Mapped(log[0].lines, wire) + Mapped(Lines(log[1..]), wire);
      assert Gather(log, f) == f(log[0]) + Gather(log[1..], f);
    }
  }

  lemma {:induction false} RowGathers(
    read: Reader, log: seq<Exchange>, wires: Exchange -> seq<string>, pieces: Exchange -> seq<seq<Piece>>)
    requires forall n | 0 <= n < |log| :: RowReads(read, wires(log[n]), pieces(log[n]))
    ensures RowReads(read, Gather(log, wires), Gather(log, pieces))
  {
    if log != [] {
      RowGathers(read, log[1..], wires, pieces);
      RowPlus(read, wires(log[0]), pieces(log[0]), Gather(log[1..], wires), Gather(log[1..], pieces));
    }
  }

  /** A first response, and those of the exchanges. */
  lemma RowFollows(
    read: Reader, first: Line, one: seq<Piece>, log: seq<Exchange>, wire: Line -> string,
        pieces: Exchange -> seq<seq<Piece>>)
    requires ReadsAs(read, wire(first), one)
    requires forall n | 0 <= n < |log| :: RowReads(read, Mapped(log[n].lines, wire), pieces(log[n]))
    ensures ReadMany(read, Stream(Mapped([first] + Lines(log), wire), 0), 1 + |Lines(log)|)
            == Some(([one] + Gather(log, pieces), ""))
  {
    MapGathers(log, wire);
    RowGathers(read, log, EachMapped(wire), pieces);
    RowPlus(read, [wire(first)], [one], Mapped(Lines(log), wire), Gather(log, pieces));
    assert Mapped([first] + Lines(log), wire) == [wire(first)] + Mapped(Lines(log), wire);
    RowRead(read, Mapped([first] + Lines(log), wire), [one] + Gather(log, pieces));
  }

  lemma AllRead(world: World, log: seq<Exchange>)
    requires Legal(world) && Fed(world) && HonestLog(world, log) && forall n | 0 <= n < |log| :: Sessions.GoodAt(log, n)
    ensures forall n | 0 <= n < |log| :: RowReads(ReadResponse, Mapped(log[n].lines, WireOf), AllPieces(log[n]))
  {
    forall n | 0 <= n < |log| ensures RowReads(ReadResponse, Mapped(log[n].lines, WireOf), AllPieces(log[n])) {
      assert HonestExchange(world, log[n]) && Sessions.GoodAt(log, n);
      AllUnharmed(world, Sessions.Scan(log[..n]), log[n]);
      ExchangeReads(Sessions.Scan(log[..n]), log[n]);
    }
  }

  /** In every IMAP session, beside any deliveries: everything the server sends, from the greeting to the last
      response, is read by a client of counted literals as exactly one response for each response sent, in order, with
      nothing left. */
  lemma SessionRead(world: World, cfg: Config, isTLS: bool, net: Net)
    requires Legal(world) && Fed(world) && HonestLog(world, Sessions.Run(cfg, isTLS, net).log)
             && Lacks(cfg.domain, '\n')
    ensures var log, greeting := Sessions.Run(cfg, isTLS, net).log, Untagged(Greeting(cfg.domain));
            ReadMany(ReadResponse, Stream(WiresOf([greeting] + Lines(log)), 0), 1 + |Lines(log)|)
            == Some(([[Chars(greeting.Text())]] + Gather(log, AllPieces), ""))
  {
    var log, greeting := Sessions.Run(cfg, isTLS, net).log, Untagged(Greeting(cfg.domain));
    Sessions.FromStart(cfg, isTLS, net);
    AllRead(world, log);
    NoteReads(greeting);
    RowFollows(ReadResponse, greeting, [Chars(greeting.Text())], log, WireOf, AllPieces);
  }
}

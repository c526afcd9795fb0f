/** The wordings of the IMAP server make one line each, and none announces a literal. */
module ImapWording {
  import opened Text
  import opened FetchFormat
  import opened Imap

  lemma VerbNameLacks(verb: Verb)
    ensures Lacks(VerbName(verb), '\n')
  {
  }

  lemma UsagePlain(verb: Verb)
    ensures Plain(UsageOf(verb))
  {
    match verb
    case LOGIN => PlainPlus("LOGIN ", "username password");
    case LIST => PlainPlus("LIST ", "reference pattern");
    case FETCH => PlainPlus("FETCH ", "sequence data-items");
    case _ => PlainPlus("SELECT ", "mailbox");
  }

  lemma ActivityPlain(verb: Verb)
    ensures Plain(Activity(verb))
  {
  }

  lemma ChangePlain(verb: Verb)
    ensures Plain(Change(verb))
  {
  }

  lemma WhyPlain(why: Why)
    ensures Plain(WhyText(why))
  {
    if why.BadUsername? {
      PlainPlus("Invalid username format, ", "expected user@domain");
    }
  }

  lemma TlsPlain(news: TlsNews)
    ensures Plain(TlsText(news))
  {
  }

  lemma MisplacedPlain(misplaced: Misplaced)
    ensures Plain(MisplacedText(misplaced))
  {
    match misplaced
    case BeforeAuthentication => PlainPlus("Command not allowed ", "before authentication");
    case WithoutMailbox => PlainPlus("Command not allowed ", "without selected mailbox");
    case _ => UnknownPlain(misplaced);
  }

  lemma UnknownPlain(misplaced: Misplaced)
    requires misplaced.UnknownCommand? || misplaced.InvalidCommand?
    ensures Plain(MisplacedText(misplaced))
  {
  }

  lemma OpenPlain(readOnly: bool)
    ensures Plain(Wording(OpenDone(readOnly)))
  {
  }

  // ---- Quoted names ----

  lemma EscapedCharLacks(c: char)
    ensures Lacks(EscapedChar(c), '\n')
  {
  }

  lemma {:induction false} EscapedLacks(s: string, i: nat)
    requires i <= |s|
    ensures Lacks(Escaped(s, i), '\n')
    decreases |s| - i
  {
    if i < |s| {
      EscapedLacks(s, i + 1);
      EscapedCharLacks(s[i]);
      LacksPlus(EscapedChar(s[i]), Escaped(s, i + 1), '\n');
    }
  }

  /** Whatever a name holds, quoted it stays on its line. */
  lemma QuotedPlain(s: string)
    ensures Plain(Quoted(s))
  {
    EscapedLacks(s, 0);
    LacksPlus("\"", Escaped(s, 0), '\n');
    PlainPlus("\"" + Escaped(s, 0), "\"");
  }

  function HexValue(c: char): nat {
    if IsDigit(c) then c as int - '0' as int else if 'a' <= c <= 'f' then c as int - 'a' as int + 10 else 0
  }

  /** The character a backslash and this letter stand for. */
  function ShortEscape(c: char): Option<char> {
    if c == '"' || c == '\\' then Some(c)
    else if c == 'a' then Some(7 as char)
    else if c == 'b' then Some(8 as char)
    else if c == 't' then Some('\t')
    else if c == 'n' then Some('\n')
    else if c == 'v' then Some(11 as char)
    else if c == 'f' then Some(12 as char)
    else if c == 'r' then Some('\r')
    else None
  }

  function Prepend(c: char, s: Option<string>): Option<string> {
    if s.Some? then Some([c] + s.value) else None
  }

  /** Reads escaped text. */
  function Unescape(t: string): Option<string> {
    if t == "" then Some("")
    else if t[0] != '\\' then Prepend(t[0], Unescape(t[1..]))
    else if |t| >= 4 && t[1] == 'x' then Prepend((16 * HexValue(t[2]) + HexValue(t[3])) as char, Unescape(t[4..]))
    else if |t| >= 2 && ShortEscape(t[1]).Some? then Prepend(ShortEscape(t[1]).value, Unescape(t[2..]))
    else None
  }

  lemma UnescapeOne(c: char, t: string)
    requires c != '\\'
    ensures Unescape([c] + t) == Prepend(c, Unescape(t))
  {
    assert ([c] + t)[1..] == t;
  }

  lemma UnescapeShort(letter: char, c: char, t: string)
    requires ShortEscape(letter) == Some(c)
    ensures Unescape(['\\', letter] + t) == Prepend(c, Unescape(t))
  {
    assert (['\\', letter] + t)[2..] == t;
  }

  lemma UnescapeHex(high: char, low: char, t: string)
    ensures Unescape(['\\', 'x', high, low] + t) == Prepend((16 * HexValue(high) + HexValue(low)) as char, Unescape(t))
  {
    assert (['\\', 'x', high, low] + t)[4..] == t;
  }

  lemma UnescapeChar(c: char, t: string)
    ensures Unescape(EscapedChar(c) + t) == Prepend(c, Unescape(t))
  {
    var e := EscapedChar(c);
    if |e| == 1 {
      UnescapeOne(c, t);
    } else if |e| == 2 {
      assert e == ['\\', e[1]];
      UnescapeShort(e[1], c, t);
    } else {
      HexRead(c);
      assert e == ['\\', 'x', e[2], e[3]];
      UnescapeHex(e[2], e[3], t);
    }
  }

  lemma HexRead(c: char)
    requires c < 128 as char
    ensures HexValue(HexDigit(c as int / 16)) == c as int / 16 && HexValue(HexDigit(c as int % 16)) == c as int % 16
  {
  }

  /** A client reads a quoted name back, whatever characters it has. */
  lemma {:induction false} EscapedReadBack(s: string, i: nat)
    requires i <= |s|
    ensures Unescape(Escaped(s, i)) == Some(s[i..])
    decreases |s| - i
  {
    if i < |s| {
      EscapedReadBack(s, i + 1);
      UnescapeChar(s[i], Escaped(s, i + 1));
      assert [s[i]] + s[i + 1..] == s[i..];
    } else {
      assert s[i..] == "";
    }
  }

  lemma QuotedReadBack(s: string)
    ensures |Quoted(s)| >= 2 && Quoted(s)[0] == '"' && Quoted(s)[|Quoted(s)| - 1] == '"'
    ensures Unescape(Quoted(s)[1..|Quoted(s)| - 1]) == Some(s)
  {
    EscapedReadBack(s, 0);
    assert Quoted(s)[1..|Quoted(s)| - 1] == Escaped(s, 0);
    assert s[0..] == s;
  }

  lemma NoSuchPlain(name: string)
    ensures Plain(Wording(NoSuchMailbox(name)))
  {
    QuotedPlain(name);
    LacksPlus("Mailbox ", Quoted(name), '\n');
    PlainPlus("Mailbox " + Quoted(name), " does not exist");
  }

  lemma WordingPlain(saying: Saying)
    ensures Plain(Wording(saying))
  {
    match saying
    case Done(verb) =>
      VerbNameLacks(verb);
      PlainPlus(VerbName(verb), " completed");
    case OpenDone(readOnly) => OpenPlain(readOnly);
    case Usage(verb) =>
      UsagePlain(verb);
      PlainPlus("Syntax: ", UsageOf(verb));
    case ErrorIn(verb) =>
      ActivityPlain(verb);
      PlainPlus("Error ", Activity(verb));
    case ReadOnly(verb) =>
      ChangePlain(verb);
      PlainPlus("[READ-ONLY] Cannot ", Change(verb));
    case Failure(why) => WhyPlain(why);
    case NoSuchMailbox(name) => NoSuchPlain(name);
    case Tls(news) => TlsPlain(news);
    case OutOfPlace(misplaced) => MisplacedPlain(misplaced);
  }

  // ---- Untagged responses ----

  lemma CodePlain(key: string, n: nat, comment: string)
    requires Lacks(key, '\n') && Plain(comment)
    ensures Plain(CodeText(key, n, comment))
  {
    DigitsLackFeed(Dec(n));
    LacksPlus("OK [", key, '\n');
    LacksPlus("OK [" + key, " ", '\n');
    LacksPlus("OK [" + key + " ", Dec(n), '\n');
    PlainPlus("]", comment);
    PlainPlus("OK [" + key + " " + Dec(n), "]" + comment);
  }

  lemma GreetingPlain(domain: string)
    requires Lacks(domain, '\n')
    ensures Plain(NoteText(Greeting(domain)))
  {
    LacksPlus("OK ", domain, '\n');
    PlainPlus("OK " + domain, " IMAP4rev1 gomail-core ready");
  }

  lemma CapabilitiesPlain(startTls: bool)
    ensures Plain(NoteText(Capabilities(startTls)))
  {
    var first, second := "CAPABILITY IMAP4rev1 LITERAL+ ", "SASL-IR LOGIN IDLE STARTTLS";
    assert Lacks(first, '\n') && Plain(second);
    PlainPlus(first, second);
    if startTls {
      PlainPlus(first + second, " STARTTLS");
    } else {
      assert first + second + "" == first + second;
    }
  }

  lemma FlagNamesLack()
    ensures Lacks(FlagNames(), '\n')
  {
    var first, second := "\\Seen \\Answered \\Flagged ", "\\Deleted \\Draft";
    assert Lacks(first, '\n') && Lacks(second, '\n');
    LacksPlus(first, second, '\n');
  }

  lemma FlagsPlain()
    ensures Plain(NoteText(Flags))
  {
    FlagNamesLack();
    LacksPlus("FLAGS (", FlagNames(), '\n');
    PlainPlus("FLAGS (" + FlagNames(), ")");
  }

  lemma PermanentFlagsPlain()
    ensures Plain(NoteText(PermanentFlags))
  {
    FlagNamesLack();
    LacksPlus("OK [PERMANENTFLAGS (", FlagNames(), '\n');
    PlainPlus("OK [PERMANENTFLAGS (" + FlagNames(), " \\*)] Permanent flags");
  }

  lemma ListedPlain(name: string)
    ensures Plain(NoteText(Listed(name)))
  {
    QuotedPlain(name);
    PlainPlus("LIST (\\HasNoChildren) \"/\" ", Quoted(name));
  }

  lemma ExistsPlain(count: nat)
    ensures Plain(NoteText(Exists(count)))
  {
    DigitsLackFeed(Dec(count));
    PlainPlus(Dec(count), " EXISTS");
  }

  lemma FixedPlain(note: Note)
    requires note in {Bye, Recent, Unseen}
    ensures Plain(NoteText(note))
  {
  }

  lemma NotePlain(note: Note)
    requires !note.Data? && (note.Greeting? ==> Lacks(note.domain, '\n'))
    ensures Plain(NoteText(note))
  {
    match note
    case Greeting(domain) => GreetingPlain(domain);
    case Capabilities(startTls) => CapabilitiesPlain(startTls);
    case Exists(count) => ExistsPlain(count);
    case UidValidity(number) => CodePlain("UIDVALIDITY", number, " UIDs valid");
    case UidNext(number) => CodePlain("UIDNEXT", number, " Predicted next UID");
    case Flags => FlagsPlain();
    case PermanentFlags => PermanentFlagsPlain();
    case Listed(name) => ListedPlain(name);
    case _ => FixedPlain(note);
  }

  /** A tagged response is plain, whatever the tag. */
  lemma TaggedPlain(tag: string, status: Status, saying: Saying)
    requires Lacks(tag, '\n')
    ensures Plain(Tagged(tag, status, saying).Text())
  {
    WordingPlain(saying);
    LacksPlus(tag, " ", '\n');
    LacksPlus(tag + " ", StatusText(status), '\n');
    LacksPlus(tag + " " + StatusText(status), " ", '\n');
    PlainPlus(tag + " " + StatusText(status) + " ", Wording(saying));
  }

  lemma UntaggedPlain(note: Note)
    requires Plain(NoteText(note))
    ensures Plain(Untagged(note).Text())
  {
    PlainPlus("* ", NoteText(note));
  }
}

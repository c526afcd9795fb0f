/** How an IMAP command line is read: the exact meaning of its text. */
module ImapCommands {
  import opened Text
  import opened Storage
  import opened FetchFormat
  import opened FetchItems
  import opened Imap

  // ---- The command word ----

  /** The words of the commands, in any case. */
  predicate Spells(word: string, verb: Verb) {
    match verb
    case LOGIN => SameWord(word, "LOGIN")
    case STARTTLS => SameWord(word, "STARTTLS")
    case CAPABILITY => SameWord(word, "CAPABILITY")
    case LOGOUT => SameWord(word, "LOGOUT")
    case SELECT => SameWord(word, "SELECT")
    case EXAMINE => SameWord(word, "EXAMINE")
    case LIST => SameWord(word, "LIST")
    case LSUB => SameWord(word, "LSUB")
    case NOOP => SameWord(word, "NOOP")
    case FETCH => SameWord(word, "FETCH")
    case STORE => SameWord(word, "STORE")
    case SEARCH => SameWord(word, "SEARCH")
    case EXPUNGE => SameWord(word, "EXPUNGE")
    case CLOSE => SameWord(word, "CLOSE")
    case OTHER =>
      && !SameWord(word, "LOGIN") && !SameWord(word, "STARTTLS") && !SameWord(word, "CAPABILITY")
      && !SameWord(word, "LOGOUT") && !SameWord(word, "SELECT") && !SameWord(word, "EXAMINE")
      && !SameWord(word, "LIST") && !SameWord(word, "LSUB") && !SameWord(word, "NOOP") && !SameWord(word, "FETCH")
      && !SameWord(word, "STORE") && !SameWord(word, "SEARCH") && !SameWord(word, "EXPUNGE")
      && !SameWord(word, "CLOSE")
    case MISSING => false
  }

  lemma SessionWords(word: string)
    ensures ToUpper(word) == "LOGIN" <==> SameWord(word, "LOGIN")
    ensures ToUpper(word) == "STARTTLS" <==> SameWord(word, "STARTTLS")
    ensures ToUpper(word) == "CAPABILITY" <==> SameWord(word, "CAPABILITY")
    ensures ToUpper(word) == "LOGOUT" <==> SameWord(word, "LOGOUT")
    ensures ToUpper(word) == "SELECT" <==> SameWord(word, "SELECT")
  {
    UpperSpells(word, "LOGIN");
    UpperSpells(word, "STARTTLS");
    UpperSpells(word, "CAPABILITY");
    UpperSpells(word, "LOGOUT");
    UpperSpells(word, "SELECT");
  }

  lemma MailboxWords(word: string)
    ensures ToUpper(word) == "EXAMINE" <==> SameWord(word, "EXAMINE")
    ensures ToUpper(word) == "LIST" <==> SameWord(word, "LIST")
    ensures ToUpper(word) == "LSUB" <==> SameWord(word, "LSUB")
    ensures ToUpper(word) == "NOOP" <==> SameWord(word, "NOOP")
  {
    UpperSpells(word, "EXAMINE");
    UpperSpells(word, "LIST");
    UpperSpells(word, "LSUB");
    UpperSpells(word, "NOOP");
  }

  lemma MessageWords(word: string)
    ensures ToUpper(word) == "FETCH" <==> SameWord(word, "FETCH")
    ensures ToUpper(word) == "STORE" <==> SameWord(word, "STORE")
    ensures ToUpper(word) == "SEARCH" <==> SameWord(word, "SEARCH")
    ensures ToUpper(word) == "EXPUNGE" <==> SameWord(word, "EXPUNGE")
    ensures ToUpper(word) == "CLOSE" <==> SameWord(word, "CLOSE")
  {
    UpperSpells(word, "FETCH");
    UpperSpells(word, "STORE");
    UpperSpells(word, "SEARCH");
    UpperSpells(word, "EXPUNGE");
    UpperSpells(word, "CLOSE");
  }

  lemma VerbExact(word: string, verb: Verb)
    ensures VerbOf(ToUpper(word)) == verb <==> Spells(word, verb)
  {
    SessionWords(word);
    MailboxWords(word);
    MessageWords(word);
  }

  // ---- The line ----

  lemma CutAt(first: string, c: char, second: string)
    requires Lacks(first, c)
    ensures Cut(first + [c] + second, c) == (first, second, true)
  {
    var s := first + [c] + second;
    assert forall j | 0 <= j < |first| :: s[j] == first[j];
    IndexOfUnique(s, c, |first|);
    assert s[..|first|] == first && s[|first| + 1..] == second;
  }

  lemma CutNowhere(s: string, c: char)
    requires Lacks(s, c)
    ensures Cut(s, c) == (s, "", false)
  {
    IndexOfUnique(s, c, |s|);
  }

  /** A line without a blank is all tag. */
  lemma ParseTagOnly(text: string)
    requires Lacks(text, ' ')
    ensures Parse(text) == Request(text, MISSING, Unread)
  {
    CutNowhere(text, ' ');
  }

  /** A line is a tag, a word in any case, and arguments, told apart by blanks. */
  lemma ParseLine(tag: string, word: string, args: string, verb: Verb)
    requires Lacks(tag, ' ') && Lacks(word, ' ')
    ensures Parse(tag + [' '] + (word + [' '] + args)) == Request(tag, verb, ParseArgs(verb, args))
            <==> Spells(word, verb)
  {
    CutAt(tag, ' ', word + [' '] + args);
    CutAt(word, ' ', args);
    VerbExact(word, verb);
  }

  /** ... and the arguments are empty when no blank follows the word. */
  lemma ParseShortLine(tag: string, word: string, verb: Verb)
    requires Lacks(tag, ' ') && Lacks(word, ' ')
    ensures Parse(tag + [' '] + word) == Request(tag, verb, ParseArgs(verb, "")) <==> Spells(word, verb)
  {
    CutAt(tag, ' ', word);
    CutNowhere(word, ' ');
    VerbExact(word, verb);
  }

  /** `text` is the tag, the word and the arguments, told apart by blanks. */
  predicate Reads(text: string, tag: string, word: string, args: string) {
    && Lacks(tag, ' ') && Lacks(word, ' ')
    && (text == tag + [' '] + (word + [' '] + args) || (text == tag + [' '] + word && args == ""))
  }

  lemma SplitFirst(s: string) returns (first: string, second: string)
    requires !Lacks(s, ' ')
    ensures s == first + [' '] + second && Lacks(first, ' ')
  {
    var i := IndexOf(s, ' ');
    first, second := s[..i], s[i + 1..];
  }

  /** Every line but one without a blank is read so. */
  lemma Decompose(text: string) returns (tag: string, word: string, args: string)
    requires Parse(text).verb != MISSING
    ensures Reads(text, tag, word, args) && Spells(word, Parse(text).verb)
    ensures Parse(text) == Request(tag, Parse(text).verb, ParseArgs(Parse(text).verb, args))
  {
    if Lacks(text, ' ') {
      ParseTagOnly(text);
    }
    var rest: string;
    tag, rest := SplitFirst(text);
    if Lacks(rest, ' ') {
      word, args := rest, "";
      ShortReads(tag, word);
    } else {
      word, args := SplitFirst(rest);
      LongReads(tag, word, args);
    }
  }

  lemma LongReads(tag: string, word: string, args: string)
    requires Lacks(tag, ' ') && Lacks(word, ' ')
    ensures var req := Parse(tag + [' '] + (word + [' '] + args));
            req == Request(tag, req.verb, ParseArgs(req.verb, args)) && Spells(word, req.verb)
  {
    var verb := VerbOf(ToUpper(word));
    VerbExact(word, verb);
    ParseLine(tag, word, args, verb);
  }

  lemma ShortReads(tag: string, word: string)
    requires Lacks(tag, ' ') && Lacks(word, ' ')
    ensures var req := Parse(tag + [' '] + word);
            req == Request(tag, req.verb, ParseArgs(req.verb, "")) && Spells(word, req.verb)
  {
    var verb := VerbOf(ToUpper(word));
    VerbExact(word, verb);
    ParseShortLine(tag, word, verb);
  }

  // ---- The arguments ----

  /** `s` is `inner` between quotes, if any, taken off as often as there are. */
  ghost predicate Unquotes(s: string, inner: string) {
    exists left, right :: Around(s, {'"'}, left, inner, right)
  }

  lemma UnquotesExact(s: string, inner: string)
    ensures Trim(s, QUOTES) == inner <==> Unquotes(s, inner)
  {
    TrimExact(s, QUOTES, inner);
  }

  /** `args` is two arguments, told apart at the first blank. */
  predicate Pair(args: string, first: string, second: string) {
    args == first + [' '] + second && Lacks(first, ' ')
  }

  lemma CutPair(args: string, first: string, second: string)
    ensures Cut(args, ' ') == (first, second, true) <==> Pair(args, first, second)
  {
    if Pair(args, first, second) {
      CutAt(first, ' ', second);
    }
    var i := IndexOf(args, ' ');
    if i < |args| {
      assert args == args[..i] + [' '] + args[i + 1..];
    }
  }

  lemma NoPair(args: string)
    ensures Lacks(args, ' ') <==> !Cut(args, ' ').2
  {
    if Lacks(args, ' ') {
      CutNowhere(args, ' ');
    }
  }

  /** LOGIN: two arguments, a username and a password, each with or without quotes; anything else is malformed. */
  lemma LoginArgs(args: string, username: string, password: string)
    ensures ParseArgs(LOGIN, args) == Credentials(username, password, ParseAddress(username))
            <==> exists first, second ::
                   Pair(args, first, second) && Unquotes(first, username) && Unquotes(second, password)
    ensures ParseArgs(LOGIN, args).Malformed? <==> Lacks(args, ' ')
  {
    var (first, second, two) := Cut(args, ' ');
    NoPair(args);
    CutPair(args, first, second);
    UnquotesExact(first, username);
    UnquotesExact(second, password);
    forall f, s | Pair(args, f, s) ensures f == first && s == second {
      CutPair(args, f, s);
    }
  }

  /** LIST and LSUB: two arguments, the second a pattern with or without quotes. */
  lemma ListArgs(verb: Verb, args: string, pattern: string)
    requires verb == LIST || verb == LSUB
    ensures ParseArgs(verb, args) == Pattern(pattern)
            <==> exists first, second :: Pair(args, first, second) && Unquotes(second, pattern)
    ensures ParseArgs(verb, args).Malformed? <==> Lacks(args, ' ')
  {
    var (first, second, two) := Cut(args, ' ');
    NoPair(args);
    CutPair(args, first, second);
    UnquotesExact(second, pattern);
    forall f, s | Pair(args, f, s) ensures f == first && s == second {
      CutPair(args, f, s);
    }
  }

  /** FETCH: two arguments, the second of which tells by its words, in any case, what is wanted. */
  lemma FetchArgs(args: string, wants: Wants)
    ensures ParseArgs(FETCH, args) == Args.Items(wants)
            <==> exists first, second :: Pair(args, first, second) && AsksFor(second, wants)
    ensures ParseArgs(FETCH, args).Malformed? <==> Lacks(args, ' ')
  {
    var (first, second, two) := Cut(args, ' ');
    NoPair(args);
    CutPair(args, first, second);
    WantsExact(second);
    forall f, s | Pair(args, f, s) ensures f == first && s == second {
      CutPair(args, f, s);
    }
  }

  ghost predicate AsksFor(items: string, wants: Wants) {
    && (wants.flags <==> Mentions(items, "FLAGS"))
    && (wants.uid <==> Mentions(items, "UID"))
    && (wants.size <==> Mentions(items, "RFC822.SIZE"))
    && (wants.body <==> Mentions(items, "BODY[]") || Mentions(items, "RFC822"))
  }

  /** SELECT and EXAMINE: blanks, quotes, the name, quotes and blanks. */
  ghost predicate NamesMailbox(args: string, name: string) {
    exists left, core, right :: Around(args, SPACES, left, core, right) && Unquotes(core, name)
  }

  lemma NameExact(args: string, name: string)
    ensures Trim(TrimSpace(args), QUOTES) == name <==> NamesMailbox(args, name)
  {
    var core := TrimSpace(args);
    UnquotesExact(core, name);
    var left, right := TrimSplits(args, SPACES);
    assert Around(args, SPACES, left, core, right);
    forall l, c, r | Around(args, SPACES, l, c, r) ensures c == core {
      TrimAround(args, SPACES, l, c, r);
    }
  }

  lemma SelectArgs(verb: Verb, args: string, name: string)
    requires verb == SELECT || verb == EXAMINE
    ensures ParseArgs(verb, args) == Name(name) <==> name != "" && NamesMailbox(args, name)
    ensures ParseArgs(verb, args).Malformed? <==> NamesMailbox(args, "")
  {
    NameExact(args, name);
    NameExact(args, "");
  }

  // ---- Patterns ----

  /** A mailbox matches the pattern `*`, the pattern `%`, and its own name in any case. */
  lemma MatchesExact(name: string, pattern: string)
    ensures Matches(name, pattern) <==> pattern == "*" || pattern == "%" || SameWord(name, pattern)
  {
    SameWordExact(name, pattern);
  }
}

/** What MySQL and Redis hold for the mail server, and the queries on it. */
module Storage {
  import opened Text

  /** The largest value of an `INT UNSIGNED` column. */
  const UID_MAX: nat := 4294967295

  datatype Mailbox = Mailbox(userId: nat, name: string, uidValidity: nat, uidNext: nat)

  datatype Message = Message(
    id: nat, mailboxId: nat, uid: nat, flags: string, sizeBytes: nat,
    envelopeFrom: string, envelopeTo: string, subject: string)

  /** The rows nothing in the servers changes: active domains by name, active users by domain and name,
      mailbox ids by owner and name (the table's UNIQUE keys). */
  datatype Directory = Directory(domains: map<string, nat>, users: map<(nat, string), nat>,
      byOwner: map<(nat, string), nat>)

  /** The rows and cache entries that change; `nextId` is the AUTO_INCREMENT counter of messages. */
  datatype Store = Store(mailboxes: map<nat, Mailbox>, messages: seq<Message>, nextId: nat, cache: map<string, string>)

  // ---- Addresses ----

  /** "user@domain", cut at the first '@', both parts non-empty. */
  function ParseAddress(addr: string): Option<(string, string)> {
    var (user, domain, found) := Cut(addr, '@');
    if found && user != "" && domain != "" then Some((user, domain)) else None
  }

  /** Parsing succeeds exactly on the addresses built from a user without '@' and a domain, and gives those back. */
  lemma ParseAddressExact(addr: string, user: string, domain: string)
    ensures ParseAddress(addr) == Some((user, domain))
            <==> addr == user + "@" + domain && user != "" && domain != "" && Lacks(user, '@')
  {
    var i := IndexOf(addr, '@');
    if i < |addr| {
      assert addr == addr[..i] + "@" + addr[i + 1..];
      assert Lacks(addr[..i], '@');
    }
    if addr == user + "@" + domain && Lacks(user, '@') {
      assert forall j | 0 <= j < |user| :: addr[j] == user[j];
      IndexOfUnique(addr, '@', |user|);
      assert addr[..|user|] == user && addr[|user| + 1..] == domain;
    }
  }

  function FindDomain(dir: Directory, name: string): Option<nat> {
    if name in dir.domains then Some(dir.domains[name]) else None
  }

  function FindUser(dir: Directory, name: string, domain: nat): Option<nat> {
    if (domain, name) in dir.users then Some(dir.users[(domain, name)]) else None
  }

  function FindMailbox(dir: Directory, user: nat, name: string): Option<nat> {
    if (user, name) in dir.byOwner then Some(dir.byOwner[(user, name)]) else None
  }

  /** The account an address belongs to. */
  function ResolveUser(dir: Directory, addr: string): Option<nat> {
    match ParseAddress(addr)
    case None => None
    case Some(parts) =>
      match FindDomain(dir, parts.1)
      case None => None
      case Some(domain) => FindUser(dir, parts.0, domain)
  }

  /** The mailbox mail for an address goes to. */
  function ResolveInbox(dir: Directory, addr: string): Option<nat> {
    match ResolveUser(dir, addr)
    case None => None
    case Some(user) => FindMailbox(dir, user, "INBOX")
  }

  /** An address belongs to an account exactly if it is a user name, '@' and a domain name, the domain is known by its
      name and the account by that domain and its name. */
  lemma ResolveUserExact(dir: Directory, addr: string, account: nat)
    ensures ResolveUser(dir, addr) == Some(account)
            <==> exists user, domain ::
                   && addr == user + "@" + domain && user != "" && domain != "" && Lacks(user, '@')
                   && domain in dir.domains && (dir.domains[domain], user) in dir.users
                   && dir.users[(dir.domains[domain], user)] == account
  {
    if ParseAddress(addr).Some? {
      var (user, domain) := ParseAddress(addr).value;
      ParseAddressExact(addr, user, domain);
    }
    forall user, domain | addr == user + "@" + domain && user != "" && domain != "" && Lacks(user, '@')
      ensures ParseAddress(addr) == Some((user, domain))
    {
      ParseAddressExact(addr, user, domain);
    }
  }

  /** Mail for an address goes to the mailbox named INBOX of its account. */
  lemma ResolveInboxExact(dir: Directory, addr: string, mailbox: nat)
    ensures ResolveInbox(dir, addr) == Some(mailbox)
            <==> exists account ::
                   && ResolveUser(dir, addr) == Some(account)
                   && (account, "INBOX") in dir.byOwner && dir.byOwner[(account, "INBOX")] == mailbox
  {
  }

  /** Foreign and unique keys: the index entries are the rows. */
  ghost predicate Consistent(dir: Directory, mailboxes: map<nat, Mailbox>) {
    forall user, name | (user, name) in dir.byOwner ::
      var id := dir.byOwner[(user, name)];
      id in mailboxes && mailboxes[id].userId == user && mailboxes[id].name == name
  }

  // ---- Messages ----

  ghost predicate Ascending(ms: seq<Message>) {
    forall i, j | 0 <= i < j < |ms| :: ms[i].uid < ms[j].uid
  }

  function Insert(ms: seq<Message>, m: Message): (r: seq<Message>)
    ensures |r| == |ms| + 1
  {
    if ms == [] || m.uid < ms[0].uid then [m] + ms else [ms[0]] + Insert(ms[1..], m)
  }

  /** SELECT ... WHERE mailbox_id = ? ORDER BY uid ASC. */
  function Listing(messages: seq<Message>, mailbox: nat): seq<Message> {
    if messages == [] then [] else
      var m, before := messages[|messages| - 1], Listing(messages[..|messages| - 1], mailbox);
      if m.mailboxId == mailbox then Insert(before, m) else before
  }

  lemma ListingMore(messages: seq<Message>, m: Message, mailbox: nat)
    ensures Listing(messages + [m], mailbox) ==
            if m.mailboxId == mailbox then Insert(Listing(messages, mailbox), m) else Listing(messages, mailbox)
  {
    assert (messages + [m])[..|messages|] == messages;
  }

  ghost predicate Has(ms: seq<Message>, m: Message) {
    exists i | 0 <= i < |ms| :: ms[i] == m
  }

  lemma {:induction false} InsertHas(ms: seq<Message>, m: Message, x: Message)
    ensures Has(Insert(ms, m), x) <==> x == m || Has(ms, x)
  {
    if ms == [] || m.uid < ms[0].uid {
      var r := [m] + ms;
      assert r[0] == m && forall i | 0 <= i < |ms| :: r[i + 1] == ms[i];
    } else {
      InsertHas(ms[1..], m, x);
      var r := Insert(ms, m);
      assert forall i | 1 <= i < |r| :: r[i] == Insert(ms[1..], m)[i - 1];
      assert forall i | 0 <= i < |ms| - 1 :: ms[1..][i] == ms[i + 1];
      HasTail(r, x);
      HasTail(ms, x);
      assert r[1..] == Insert(ms[1..], m);
    }
  }

  lemma HasTail(ms: seq<Message>, x: Message)
    requires ms != []
    ensures Has(ms, x) <==> ms[0] == x || Has(ms[1..], x)
  {
    if Has(ms, x) {
      var i :| 0 <= i < |ms| && ms[i] == x;
      assert i > 0 ==> ms[1..][i - 1] == x;
    }
    if Has(ms[1..], x) {
      var i :| 0 <= i < |ms[1..]| && ms[1..][i] == x;
      assert ms[i + 1] == x;
    }
  }

  lemma {:induction false} InsertAscends(ms: seq<Message>, m: Message)
    requires Ascending(ms) && forall i | 0 <= i < |ms| :: ms[i].uid != m.uid
    ensures Ascending(Insert(ms, m))
  {
    if ms != [] && m.uid > ms[0].uid {
      InsertAscends(ms[1..], m);
      var tail := Insert(ms[1..], m);
      forall i | 0 <= i < |tail| ensures ms[0].uid < tail[i].uid {
        assert Has(tail, tail[i]);
        InsertHas(ms[1..], m, tail[i]);
      }
    }
  }

  /** A listing holds exactly the mailbox's messages. */
  lemma {:induction false} ListingHas(messages: seq<Message>, mailbox: nat, x: Message)
    ensures Has(Listing(messages, mailbox), x) <==> Has(messages, x) && x.mailboxId == mailbox
  {
    if messages != [] {
      var n := |messages| - 1;
      ListingHas(messages[..n], mailbox, x);
      InsertHas(Listing(messages[..n], mailbox), messages[n], x);
      if Has(messages, x) {
        var i :| 0 <= i < |messages| && messages[i] == x;
        assert i < n ==> messages[..n][i] == x;
      }
      if Has(messages[..n], x) {
        var i :| 0 <= i < n && messages[..n][i] == x;
        assert messages[i] == x;
      }
    }
  }

  /** No two rows of the mailbox have the same UID. */
  ghost predicate DistinctUids(messages: seq<Message>, mailbox: nat) {
    forall i, j | 0 <= i < j < |messages| && messages[i].mailboxId == mailbox == messages[j].mailboxId ::
      messages[i].uid != messages[j].uid
  }

  lemma {:induction false} ListingAscends(messages: seq<Message>, mailbox: nat)
    requires DistinctUids(messages, mailbox)
    ensures Ascending(Listing(messages, mailbox))
  {
    if messages != [] {
      var n := |messages| - 1;
      var front, m := messages[..n], messages[n];
      ListingAscends(front, mailbox);
      var before := Listing(front, mailbox);
      if m.mailboxId == mailbox {
        forall i | 0 <= i < |before| ensures before[i].uid != m.uid {
          assert Has(before, before[i]);
          ListingHas(front, mailbox, before[i]);
          var k :| 0 <= k < |front| && front[k] == before[i];
          assert messages[k].uid != messages[n].uid;
        }
        InsertAscends(before, m);
      }
    }
  }

  /** A message above all of a listing goes behind it. */
  lemma {:induction false} InsertBehind(before: seq<Message>, after: seq<Message>, m: Message)
    requires forall i | 0 <= i < |before| :: before[i].uid < m.uid
    ensures Insert(before + after, m) == before + Insert(after, m)
  {
    if before == [] {
      assert before + after == after && before + Insert(after, m) == Insert(after, m);
    } else {
      assert (before + after)[1..] == before[1..] + after;
      InsertBehind(before[1..], after, m);
    }
  }

  /** If all that was added is above the listing, the listing is a prefix of the later one. */
  lemma {:induction false} ListingPrefix(messages: seq<Message>, added: seq<Message>, mailbox: nat)
    requires forall i, k | 0 <= i < |Listing(messages, mailbox)| && 0 <= k < |added| && added[k].mailboxId == mailbox ::
               Listing(messages, mailbox)[i].uid < added[k].uid
    ensures Listing(messages, mailbox) <= Listing(messages + added, mailbox)
  {
    if added == [] {
      assert messages + added == messages;
    } else {
      var n := |added| - 1;
      ListingPrefix(messages, added[..n], mailbox);
      var was, now := Listing(messages, mailbox), Listing(messages + added[..n], mailbox);
      assert messages + added == messages + added[..n] + [added[n]];
      ListingMore(messages + added[..n], added[n], mailbox);
      if added[n].mailboxId == mailbox {
        assert now == was + now[|was|..];
        InsertBehind(was, now[|was|..], added[n]);
      }
    }
  }

  /** SELECT ... WHERE mailbox_id = ? AND uid = ?: a matching row, in table order. */
  function GetMessageByUID(messages: seq<Message>, mailbox: nat, uid: nat): Option<Message> {
    if messages == [] then None
    else if messages[0].mailboxId == mailbox && messages[0].uid == uid then Some(messages[0])
    else GetMessageByUID(messages[1..], mailbox, uid)
  }

  lemma {:induction false} GetFinds(messages: seq<Message>, mailbox: nat, uid: nat)
    ensures var r := GetMessageByUID(messages, mailbox, uid);
            && (r.Some? ==> Has(messages, r.value) && r.value.mailboxId == mailbox && r.value.uid == uid)
            && (r.None? ==> forall i | 0 <= i < |messages| && messages[i].mailboxId == mailbox ::
               messages[i].uid != uid)
  {
    if messages != [] && !(messages[0].mailboxId == mailbox && messages[0].uid == uid) {
      GetFinds(messages[1..], mailbox, uid);
      var r := GetMessageByUID(messages[1..], mailbox, uid);
      if r.Some? {
        HasTail(messages, r.value);
      }
      assert forall i | 1 <= i < |messages| :: messages[i] == messages[1..][i - 1];
    }
  }

  /** With distinct UIDs: fetching by UID finds the one listed entry with that UID, and fails exactly when there is
      none. */
  lemma GetAgreesWithListing(messages: seq<Message>, mailbox: nat, uid: nat)
    requires DistinctUids(messages, mailbox)
    ensures var r, list := GetMessageByUID(messages, mailbox, uid), Listing(messages, mailbox);
            && (r.Some? ==> exists i | 0 <= i < |list| ::
                 list[i] == r.value && list[i].uid == uid && forall j | 0 <= j < |list| && list[j].uid == uid :: j == i)
            && (r.None? <==> forall i | 0 <= i < |list| :: list[i].uid != uid)
  {
    var r, list := GetMessageByUID(messages, mailbox, uid), Listing(messages, mailbox);
    GetFinds(messages, mailbox, uid);
    ListingAscends(messages, mailbox);
    if r.Some? {
      ListingHas(messages, mailbox, r.value);
      var i :| 0 <= i < |list| && list[i] == r.value;
    } else {
      forall i | 0 <= i < |list| ensures list[i].uid != uid {
        assert Has(list, list[i]);
        ListingHas(messages, mailbox, list[i]);
      }
    }
  }

  // ---- The body cache ----

  function BodyKey(id: nat): string {
    "msg:body:" + Dec(id)
  }

  lemma BodyKeyInjective(m: nat, n: nat)
    requires BodyKey(m) == BodyKey(n)
    ensures m == n
  {
    assert BodyKey(m)[9..] == Dec(m) && BodyKey(n)[9..] == Dec(n);
    DecInjective(m, n);
  }

  /** A cache key is the prefix of message bodies and the decimal id. */
  lemma BodyKeyReads(id: nat)
    ensures "msg:body:" <= BodyKey(id) && AllDigits(BodyKey(id)[9..]) && ParseDec(BodyKey(id)[9..]) == id
  {
    assert BodyKey(id)[9..] == Dec(id);
    DecRoundTrip(id);
  }

  function GetMessageBody(cache: map<string, string>, id: nat): Option<string> {
    if BodyKey(id) in cache then Some(cache[BodyKey(id)]) else None
  }

  /** What was cached under an id is found under it, and under no other. */
  lemma CacheReadBack(cache: map<string, string>, id: nat, body: string, other: nat)
    ensures GetMessageBody(cache[BodyKey(id) := body], other)
            == if other == id then Some(body) else GetMessageBody(cache, other)
  {
    if BodyKey(id) == BodyKey(other) {
      BodyKeyInjective(id, other);
    }
  }

  // ---- The Subject header ----

  predicate IsSubject(line: string) {
    "SUBJECT:" <= ToUpper(line)
  }

  predicate IsBlank(line: string) {
    TrimSpace(line) == ""
  }

  /** The first line that is a hit, unless a stop comes before it. */
  function Seek(lines: seq<string>, hit: string -> bool, stop: string -> bool, i: nat): Option<nat>
    requires i <= |lines|
    decreases |lines| - i
  {
    if i == |lines| then None
    else if hit(lines[i]) then Some(i)
    else if stop(lines[i]) then None
    else Seek(lines, hit, stop, i + 1)
  }

  /** `Seek` finds line `k` exactly when it is a hit and no line before it is a hit or a stop. */
  lemma {:induction false} SeekExact(lines: seq<string>, hit: string -> bool, stop: string -> bool, i: nat, k: nat)
    requires i <= |lines|
    ensures Seek(lines, hit, stop, i) == Some(k)
            <==> i <= k < |lines| && hit(lines[k]) && forall j | i <= j < k :: !hit(lines[j]) && !stop(lines[j])
    decreases |lines| - i
  {
    if i < |lines| && !hit(lines[i]) && !stop(lines[i]) {
      SeekExact(lines, hit, stop, i + 1, k);
    }
  }

  /** The trimmed value of the first Subject line of the header block, or "". */
  function Subject(body: string): string {
    var lines := Split(body, '\n');
    SubjectOf(lines, Seek(lines, IsSubject, IsBlank, 0))
  }

  function SubjectOf(lines: seq<string>, at: Option<nat>): string {
    if at.Some? && at.value < |lines| && |lines[at.value]| >= 8 then TrimSpace(lines[at.value][8..]) else ""
  }

  /** A line of nothing but the blanks of ASCII. */
  predicate Blank(line: string) {
    AllIn(line, {' ', '\t', '\n', '\r', 11 as char, 12 as char})
  }

  lemma IsBlankExact(line: string)
    ensures IsBlank(line) <==> Blank(line)
  {
    TrimExact(line, SPACES, "");
    if Blank(line) {
      assert Around(line, SPACES, line, "", "");
    }
  }

  /** A line of the header block that does not end the search for the Subject. */
  ghost predicate Passed(line: string) {
    !StartsWith(line, "SUBJECT:") && !Blank(line)
  }

  lemma PassedExact(line: string)
    ensures Passed(line) <==> !IsSubject(line) && !IsBlank(line)
  {
    UpperStarts(line, "SUBJECT:");
    IsBlankExact(line);
  }

  /** The lines of a body are those it is joined from. */
  lemma LinesOf(lines: seq<string>)
    requires |lines| > 0 && forall i | 0 <= i < |lines| :: Lacks(lines[i], '\n')
    ensures Subject(Join(lines, '\n')) == SubjectOf(lines, Seek(lines, IsSubject, IsBlank, 0))
  {
    SplitJoin(lines, '\n');
  }

  lemma AllPassed(lines: seq<string>, k: nat)
    requires k <= |lines| && forall j | 0 <= j < k :: Passed(lines[j])
    ensures forall j | 0 <= j < k :: !IsSubject(lines[j]) && !IsBlank(lines[j])
  {
    forall j | 0 <= j < k ensures !IsSubject(lines[j]) && !IsBlank(lines[j]) {
      PassedExact(lines[j]);
    }
  }

  lemma SeekFinds(lines: seq<string>, hit: string -> bool, stop: string -> bool, k: nat)
    requires k < |lines| && hit(lines[k]) && forall j | 0 <= j < k :: !hit(lines[j]) && !stop(lines[j])
    ensures Seek(lines, hit, stop, 0) == Some(k)
  {
    SeekExact(lines, hit, stop, 0, k);
  }

  lemma SeekFails(lines: seq<string>, hit: string -> bool, stop: string -> bool, k: nat)
    requires k <= |lines| && forall j | 0 <= j < k :: !hit(lines[j]) && !stop(lines[j])
    requires k < |lines| ==> stop(lines[k]) && !hit(lines[k])
    ensures Seek(lines, hit, stop, 0) == None
  {
    var at := Seek(lines, hit, stop, 0);
    if at.Some? {
      SeekExact(lines, hit, stop, 0, at.value);
    }
  }

  lemma SubjectLine(line: string, key: string, left: string, value: string, right: string)
    requires line == key + (left + value + right) && SameWord(key, "SUBJECT:")
    requires Blank(left) && Blank(right) && Bare(value, SPACES)
    ensures IsSubject(line) && |line| >= 8 && TrimSpace(line[8..]) == value
  {
    UpperStarts(line, "SUBJECT:");
    assert line[8..] == left + value + right;
    TrimAround(left + value + right, SPACES, left, value, right);
  }

  /** A message whose header has the line "Subject: value", in any case and with any blanks around the value, with no
      Subject line and no blank line before it, has that subject. */
  lemma SubjectFound(lines: seq<string>, k: nat, key: string, left: string, value: string, right: string)
    requires k < |lines| && forall i | 0 <= i < |lines| :: Lacks(lines[i], '\n')
    requires forall j | 0 <= j < k :: Passed(lines[j])
    requires lines[k] == key + (left + value + right) && SameWord(key, "SUBJECT:")
    requires Blank(left) && Blank(right) && Bare(value, SPACES)
    ensures Subject(Join(lines, '\n')) == value
  {
    LinesOf(lines);
    AllPassed(lines, k);
    SubjectLine(lines[k], key, left, value, right);
    SeekFinds(lines, IsSubject, IsBlank, k);
  }

  /** A message without such a line, or with a blank line first, has the empty subject. */
  lemma SubjectMissing(lines: seq<string>, k: nat)
    requires |lines| > 0 && k <= |lines| && forall i | 0 <= i < |lines| :: Lacks(lines[i], '\n')
    requires forall j | 0 <= j < k :: Passed(lines[j])
    requires k < |lines| ==> Blank(lines[k]) && !StartsWith(lines[k], "SUBJECT:")
    ensures Subject(Join(lines, '\n')) == ""
  {
    LinesOf(lines);
    AllPassed(lines, k);
    if k < |lines| {
      BlankStops(lines[k]);
    }
    SeekFails(lines, IsSubject, IsBlank, k);
  }

  lemma BlankStops(line: string)
    requires Blank(line) && !StartsWith(line, "SUBJECT:")
    ensures IsBlank(line) && !IsSubject(line)
  {
    IsBlankExact(line);
    UpperStarts(line, "SUBJECT:");
  }

  /** The scan for the Subject header. */
  method ExtractSubject(body: string) returns (subject: string)
    ensures subject == Subject(body)
  {
    var lines := Split(body, '\n');
    var i := 0;
    while i < |lines|
      invariant 0 <= i <= |lines|
      invariant Seek(lines, IsSubject, IsBlank, 0) == Seek(lines, IsSubject, IsBlank, i)
    {
      if IsSubject(lines[i]) {
        return TrimSpace(lines[i][8..]);
      }
      if IsBlank(lines[i]) {
        return "";
      }
      i := i + 1;
    }
    subject := "";
  }
}

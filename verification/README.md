# A model of gomail-core in Dafny

gomail-core is a mail server. Mail comes in over SMTP, is stored in MySQL with its body cached in Redis, and goes out over
IMAP. This project models that path and proves what holds along it: for one command, for whole sessions, for every
interleaving of concurrent deliveries, and end to end from the SMTP sender to the IMAP client.

| file | what it holds |
|---|---|
| `Text.dfy` | the string operations the servers take from Go's libraries |
| `DataTransfer.dfy` | the DATA loop: end marker, dot-unstuffing, size limit; the conforming sender and the standard receiver |
| `Smtp.dfy` | the SMTP state machine, envelope and handlers: functions, and the classes `Envelope` and `Connection` that carry them out |
| `SmtpAnswers.dfy` | which reply each SMTP command gets, by if-and-only-if on its arguments, the state and the outcomes |
| `SmtpRuns.dfy` | what holds over whole SMTP sessions |
| `SmtpSessions.dfy` | SMTP sessions on real command lines |
| `Storage.dfy` | tables, listings, lookups, cache keys, the Subject scan |
| `MessageStore.dfy` | delivery of one message run alone: closed form, and the class `Pipeline` |
| `DeliverySystem.dfy` | any number of deliveries at once, step by step, and the invariant of every interleaving |
| `DeliveryTheorems.dfy` | uniqueness, refinement, conservation, late arrivals, stable numbering, cache agreement |
| `SoloDelivery.dfy` | a delivery run alone is a run of the concurrent system |
| `FetchFormat.dfy` | the FETCH and SEARCH printers, and a client that reads counted literals |
| `FetchItems.dfy` | a client that reads the items of a FETCH response from its text |
| `Imap.dfy` | the IMAP state machine and handlers: functions, and the class `Connection` that carries them out |
| `ImapRuns.dfy` | what holds over whole IMAP sessions |
| `ImapCommands.dfy` | the exact meaning of the text of an IMAP command line |
| `ImapAnswers.dfy` | when each IMAP command completes; every session, line by line |
| `ImapWording.dfy` | the server's texts make one line each and announce no literal |
| `MailSystem.dfy` | SMTP sessions, deliveries and IMAP sessions together: ownership and the end-to-end round trip |
| `SessionStream.dfy` | the whole byte stream of an IMAP session, read by the client |

## How things are modelled

- One `char` stands for one byte; text is ASCII, so upper-casing keeps lengths.
- The handlers are functions from a state to a state, replies and effects. The class methods change their fields step by step
  as the source does, and each is proved to do exactly what its function says; whole sessions are `Handle` against `Serve`.
  The laws are then proved about the functions.
- What the outside answers (reads, TLS handshakes, the delivery pipeline's verdict, failures of database and cache calls) is a
  parameter, so each theorem holds for every sequence of outcomes.
- Firing an event whose destination is the current state is an error that leaves the state (`internal/imap/session_test.go:85`),
  so EHLO and RSET in `greeted` get 503.
- The concurrent store has a step for each database or cache operation of each delivery. A commit or an insert may take effect
  and still report an error. Row locks are held from `SELECT ... FOR UPDATE` to the end of the transaction. SQL runs in strict
  mode, so an increment past 2^32-1 is an error.
- IMAP sessions never write to the store. An interleaving of deliveries with any number of IMAP sessions is therefore a run of
  the deliveries and, for each port call of a session, a moment of the run at which the store answered it (or an error). The
  theorems do not even need those moments to be in order.
- Domains, users and mailbox names are rows that nothing in the servers changes.

## Where the code and its documentation disagree

The model follows the code.

- The documentation says that a cache miss falls back to permanent storage (line 284 of the repository's own `README.md`). FETCH prints a fixed
  placeholder instead, and so does the model (`internal/imap/handler.go:223-227`).
- `internal/smtp/envelope.go:7` says each transaction gets a new envelope. An accepted DATA does not reset it, so the next
  message without a reset in between also goes to the previous recipients: `SmtpSessions.RecipientsCarryOver` shows it, and
  `SmtpRuns.EveryHandoffSound` says exactly when it happens.
- Section 4.5.2 of RFC 5321 has the receiver drop every leading dot; the code drops one only from a doubled dot.
  `DataTransfer.AgreesWithStandard` says exactly when the two differ.
- The client reads a FETCH response back exactly when the body does not end in a blank (`FetchFormat.FetchReadBack`), because
  the trim of trailing blanks reaches into the body. That every body received over SMTP is empty or ends in a line feed is
  what keeps it harmless (`SessionStream.SessionRead`).
- One recipient's failure can decide whether another gets the message, in one case only: both are after the last UID of the same
  mailbox (`MessageStore.RecipientsIndependent`, `MessageStore.LastUidIsExclusive`).
- A client may choose the tag `*`; it can then not tell its completion from untagged responses (`ImapRuns.OneTaggedOnWire`).

## Model

| member | source | states |
|---|---|---|
| `DataTransfer.ReadBody` | internal/smtp/handler.go:95-128 | the DATA read loop does what the recursive receiver does, for every stream of lines and errors |
| `DataTransfer.SizeDecision` | internal/smtp/handler.go:98-128 | with an end marker in the stream and MaxSize not negative, the line-by-line check refuses exactly when the whole decoded body exceeds MaxSize; otherwise the body is that decoding and exactly the lines through the first end marker are consumed |
| `DataTransfer.BrokenExact` | internal/smtp/handler.go:98-108 | the loop ends without a verdict exactly when a read fails before an end marker and before the limit is passed |
| `DataTransfer.AcceptedBody` | internal/smtp/handler.go:98-131 | every accepted body is empty or ends in a line feed, and fits MaxSize when that is not negative |
| `DataTransfer.TransmitReceive` | internal/smtp/handler.go:98-128 | a body that fits, dot-stuffed by a conforming sender, is received byte for byte, and nothing after the end marker is read |
| `DataTransfer.AgreesWithStandard` | internal/smtp/handler.go:110-120 | the code's decoding equals that of the standard receiver if and only if no body line starts with a dot followed by something other than a dot |
| `DataTransfer.LoneDotDiffers` | internal/smtp/handler.go:115-120 | a one-line body on which they differ |
| `DataTransfer.SenderOutputAgrees` | internal/smtp/handler.go:115-118 | on the output of every conforming sender the two decodings agree |
| `Smtp.ExtractAddressExact` | internal/smtp/handler.go:174-196 | an argument yields an address if and only if it is the keyword in any case, blanks, the non-empty address in angle brackets or, without them, as it stands, and blanks; everything else is refused |
| `Smtp.BracketedAddress` | internal/smtp/handler.go:183-189 | any non-empty address in angle brackets right after the keyword comes back whole, whatever its characters |
| `Smtp.ParseExact` | internal/smtp/session.go:133-157 | a line with a blank is the command its first word, trimmed and in any case, spells (EHLO or HELO, STARTTLS, MAIL, RCPT, DATA, RSET, QUIT, NOOP, or none of them), and the rest is its arguments |
| `Smtp.ParseAloneExact` | internal/smtp/session.go:133-157 | a line without a blank is that command without arguments |
| `Smtp.ReplyReads` | internal/smtp/session.go:227-231 | a client reads from a reply line its code, whether more lines follow, and its text |
| `Smtp.Envelope.AddRecipient` | internal/smtp/envelope.go:28-30 | appends the address and changes nothing else |
| `Smtp.Envelope.Reset` | internal/smtp/envelope.go:39-45 | leaves the blank envelope |
| `Smtp.Connection.constructor` | internal/smtp/session.go:61-80 | a session starts in `init` with a blank envelope |
| `Smtp.Connection.Transition` | internal/smtp/session.go:204-215 | moves by the transition table, or writes 503 and stays |
| `Smtp.Connection.TransitionRcptTo` | internal/smtp/session.go:219-224 | a further RCPT needs no transition |
| `Smtp.Connection.HandleEhlo` | internal/smtp/handler.go:17-39 | state, envelope and replies after EHLO or HELO, refusals included |
| `Smtp.Connection.HandleMail` | internal/smtp/handler.go:42-57 | ... after MAIL |
| `Smtp.Connection.HandleRcpt` | internal/smtp/handler.go:62-84 | ... after RCPT, with the limit of 100 recipients |
| `Smtp.Connection.HandleData` | internal/smtp/handler.go:88-154 | ... after DATA: read failure, oversize, delivery failure and acceptance, with the event handed over |
| `Smtp.Connection.HandleRset` | internal/smtp/handler.go:157-163 | ... after RSET |
| `Smtp.Connection.HandleQuit` | internal/smtp/handler.go:166-170 | ... after QUIT |
| `Smtp.Connection.HandleStartTls` | internal/smtp/session.go:162-201 | ... after STARTTLS, for both outcomes of the handshake |
| `Smtp.Connection.HandleRead` | internal/smtp/session.go:117-158 | one turn of the read loop is one turn of the session function: failed reads, empty lines, commands and QUIT |
| `Smtp.Connection.Handle` | internal/smtp/session.go:111-159 | the whole session writes the greeting and then exactly the replies of `Serve`, hands over exactly its events and ends in its state |
| `SmtpAnswers.EveryAnswerRight` | internal/smtp/handler.go:17-170 | for every command in every state, each reply code by if-and-only-if: EHLO 501, 250 or 503; MAIL 501, 250 exactly in greeted, or 503; RCPT 501, 452 at 100 recipients, 250 exactly in mail_from and rcpt_to, or 503; DATA 354 exactly in rcpt_to; RSET 250 exactly within a transaction; STARTTLS 220, 454 or 503, with an upgrade exactly if the handshake succeeds; and the state and envelope after each acceptance; the extensions EHLO announces |
| `SmtpRuns.StepKind` | internal/smtp/handler.go:17-170 | every command, in every state and for every outcome, is one of six kinds of step, told apart by its replies |
| `SmtpRuns.KindKeeps` | internal/smtp/session.go:83-108 | each kind of step keeps the state and envelope that the transcript determines |
| `SmtpRuns.StepKeeps` | internal/smtp/session.go:117-215 | every command keeps that invariant |
| `SmtpRuns.EveryHandoffSound` | internal/smtp/handler.go:42-153 | in every session, every event given to delivery follows an accepted EHLO, MAIL and RCPT in that order since the start or the TLS upgrade; From is the latest accepted MAIL; To is the 1 to 100 non-empty recipients accepted since the last reset, which are the last accepted message's list followed by this transaction's, and this transaction's alone exactly when nothing was accepted since the reset; Size is the body's length and fits MaxSize when that is not negative |
| `SmtpRuns.StepOrderly` | internal/smtp/handler.go:17-170 | one final reply per command; DATA is let in exactly after a recipient, and then the replies are 354 alone exactly when the read failed, 354 and 552 exactly when the body was too large, 354 and 250 or 451 exactly when it was complete and delivery succeeded or failed; 452, 454, 500, 501 and 503 change neither state nor envelope nor what is left to read |
| `SmtpRuns.EveryExchangeOrderly` | internal/smtp/session.go:117-215 | all of this for every exchange of every session, as a step from the state in which its command was read to the state in which the next one is read, with the answer of `SmtpAnswers.EveryAnswerRight`; after a refusal that is the same state |
| `SmtpRuns.OneUpgrade` | internal/smtp/session.go:162-201 | at most one TLS upgrade succeeds in a session |
| `SmtpRuns.StartTlsForgets` | internal/smtp/session.go:162-201 | two sessions with any different pasts that upgrade, and the same input and outcomes after it, give the same later states, replies and events |
| `SmtpSessions.RecipientsCarryOver` | internal/smtp/handler.go:62-153 | in a session whose lines are EHLO, MAIL, any number of RCPT, DATA and the end marker, and then such a message again, the first message is handed over for exactly its recipients in order, and the second for the first one's recipients too, for all addresses, up to 100 |
| `SmtpSessions.SessionUpgrades` | internal/smtp/session.go:162-201 | sessions do upgrade: on the lines EHLO and STARTTLS, with TLS to be had and a handshake that succeeds, whatever follows meets a session on TLS that has just begun |
| `Storage.ParseAddressExact` | internal/storage/message_store.go:112-118 | parsing succeeds exactly on a user without '@', '@' and a domain, both non-empty, and gives those parts |
| `Storage.ResolveUserExact` | internal/storage/message_store.go:50-64 | an address belongs to an account exactly if it is a user name, '@' and a domain name, and the domain and then the user are found under those names |
| `Storage.ResolveInboxExact` | internal/storage/mysql/mailbox.go:85-91 | mail goes to the mailbox named INBOX of that account |
| `Storage.ListingHas` | internal/storage/mysql/message.go:54-65 | a listing holds exactly the mailbox's messages |
| `Storage.ListingAscends` | internal/storage/mysql/message.go:54-65 | with distinct UIDs the listing ascends strictly |
| `Storage.ListingPrefix` | internal/storage/mysql/message.go:54-65 | rows added above a listing leave it as a prefix |
| `Storage.GetAgreesWithListing` | internal/storage/mysql/message.go:68-79 | lookup by UID gives the one listed entry with that UID and fails exactly when there is none |
| `Storage.BodyKeyInjective` | internal/storage/redis/store.go:98-100 | different message ids have different cache keys |
| `Storage.BodyKeyReads` | internal/storage/redis/store.go:98-100 | a key is the prefix msg:body: and the decimal id |
| `Storage.CacheReadBack` | internal/storage/redis/store.go:55-80 | what was cached under an id is found under it and under no other |
| `Storage.SeekExact` | internal/storage/message_store.go:121-132 | the header scan stops at line k exactly when k is the first Subject line and no blank line comes before it |
| `Storage.SubjectFound` | internal/storage/message_store.go:121-132 | a header line "Subject:" in any case, with no such line and no blank line before it, gives the subject: its value without the blanks around it |
| `Storage.SubjectMissing` | internal/storage/message_store.go:121-132 | without such a line, or after a blank line, the subject is empty |
| `Storage.ExtractSubject` | internal/storage/message_store.go:121-132 | the scanning loop computes that Subject |
| `MessageStore.AllocateExact` | internal/storage/mysql/mailbox.go:52-81 | a UID is given out if and only if the mailbox exists, nothing fails, the commit is reported and the counter stays within 32 bits; it is the counter's value, and only a commit that took effect moves the counter, by one |
| `MessageStore.Pipeline.AllocateUID` | internal/storage/mysql/mailbox.go:52-81 | what the transaction leaves and returns, for every failure, the column's limit included |
| `MessageStore.Pipeline.InsertMessage` | internal/storage/mysql/message.go:26-51 | the row appended and the id returned, for every outcome |
| `MessageStore.Pipeline.SetMessageBody` | internal/storage/redis/store.go:55-65 | the cache entry written, or nothing |
| `MessageStore.Pipeline.DeliverOne` | internal/storage/message_store.go:50-109 | one recipient: rows, cache and verdict for every combination of failures; on success one row with the sender, the recipient, the Subject, the size, no flags, the mailbox and its next UID |
| `MessageStore.Pipeline.Deliver` | internal/storage/message_store.go:36-47 | all recipients in order, none stopping the others; the error returned is always nil |
| `MessageStore.DeliverFirstExact` | internal/storage/message_store.go:36-109 | after any number of recipients, rows, messages, id counter and cache are those of a closed form in the arguments, every message on record field by field |
| `MessageStore.DeliveryExact` | internal/storage/message_store.go:36-109 | exactly one message for each recipient occurrence whose steps succeed, and nothing else, each with the mail's sender, Subject and size, its own recipient, mailbox and UID |
| `MessageStore.LaterRecipientHigherUid` | internal/storage/message_store.go:71-90 | repeated recipients get distinct, increasing UIDs |
| `MessageStore.OthersUntouched` | internal/storage/message_store.go:36-109 | a mailbox of no recipient keeps its row and its listing |
| `MessageStore.RecipientsIndependent` | internal/storage/message_store.go:36-47 | whatever happens to one recipient, another gets the same message with its UID moved by at most one; whether it gets one changes if and only if its own steps succeed and the mailbox's last UID is at stake |
| `MessageStore.LastUidIsExclusive` | internal/storage/mysql/mailbox.go:68-74 | that case is real: for every directory and any two recipients of one mailbox down to its last UID, the second gets a message exactly if the first one's allocation fails, shown on the rows stored |
| `MessageStore.LastUidCase` | internal/storage/message_store.go:36-47 | a database and a recipient list in which it happens |
| `DeliverySystem.UidEffect` | internal/storage/mysql/mailbox.go:52-81 | only a commit gives out a UID, the counter's value; none is taken back |
| `DeliverySystem.StepKeeps` | internal/storage/message_store.go:50-109 | every step of every delivery keeps the invariant: locks held through transactions, counters and UIDs in range, no UID with two owners, messages and ids those of their writers, cache entries those of finished deliveries, targets those of the recipients |
| `DeliverySystem.ReachableInv` | internal/storage/message_store.go:50-109 | the invariant holds after every run from an empty message table |
| `DeliveryTheorems.StoredFields` | internal/storage/message_store.go:76-87 | in every reachable state, every stored message has the sender, recipient, Subject and size its delivery was started with, no flags, and the mailbox, UID and id of that delivery |
| `DeliveryTheorems.UidsUnique` | migrations/001_init.sql:49 | stored and in-flight UIDs of a mailbox are pairwise distinct, positive and below uid_next, though the index is not UNIQUE |
| `DeliveryTheorems.ListingsAscend` | internal/storage/mysql/message.go:54-79 | in every reachable store, listings ascend strictly and lookup by UID agrees with them |
| `DeliveryTheorems.StepRefines` | internal/storage/mysql/mailbox.go:52-81 | each protocol step is one atomic fetch-and-increment, one lost value, or nothing |
| `DeliveryTheorems.RunRefines` | internal/storage/mysql/mailbox.go:52-81 | every interleaving refines atomic per-mailbox counters: from each state of the run to the next, the counters take one atomic step or none |
| `DeliveryTheorems.CommitOrder` | internal/storage/mysql/mailbox.go:76-80 | UIDs returned for one mailbox increase strictly in commit order within 1..2^32-2, whatever happens in between |
| `DeliveryTheorems.UidConservation` | internal/storage/mysql/mailbox.go:68-80 | what uid_next has moved equals messages stored, UIDs in flight and UIDs consumed without a message; every UID has its owner |
| `DeliveryTheorems.LateArrivals` | internal/storage/message_store.go:71-90 | a message that appears after an observer saw uid_next = n with a UID below n was allocated and awaiting its insert at that moment |
| `DeliveryTheorems.StableNumbering` | internal/storage/mysql/message.go:54-65 | with nothing in flight for a mailbox, its listing is a prefix of every later listing |
| `DeliveryTheorems.CacheAgreement` | internal/storage/redis/store.go:69-80 | over all failures and evictions, a body found under an id is the one delivered with that message, of the recorded size |
| `DeliveryTheorems.CachedBodyEffect` | internal/storage/redis/store.go:55-80 | a body can be read from the moment it is cached until it is evicted, and nothing else changes what can be read |
| `DeliveryTheorems.RollbackEffect` | internal/storage/mysql/mailbox.go:57-78 | a transaction that does not commit leaves the store as it was and frees the row |
| `DeliveryTheorems.LockExact` | internal/storage/mysql/mailbox.go:59-74 | a transaction gets the row exactly while no other holds it, and updates it exactly within 32 bits |
| `DeliveryTheorems.AnythingCanFail` | internal/storage/message_store.go:50-99 | every failure of a statement, a commit, an insert or the cache is a step that can happen whenever its operation can |
| `DeliveryTheorems.OneAuthor` | internal/storage/mysql/message.go:26-51 | an id names one message of one delivery |
| `SoloDelivery.SoloRun` | internal/storage/message_store.go:50-109 | one recipient's delivery, with any failures, is a run of the concurrent system |
| `SoloDelivery.SequentialRun` | internal/storage/message_store.go:36-47 | so is the delivery to a whole recipient list |
| `FetchFormat.FetchReadBack` | internal/imap/handler.go:208-232 | a client that reads counted literals gets the items, the very bytes of the body and the rest of the stream if and only if the body does not end in a blank; without a cached body the literal is the fixed text |
| `FetchItems.WantsExact` | internal/imap/handler.go:202-222 | the items wanted are told by the words FLAGS, UID, RFC822.SIZE, BODY[] and RFC822 in the arguments, in any case, by if-and-only-if |
| `FetchItems.AttributesRead` | internal/imap/handler.go:207-231 | a client that reads the items from the text of a response finds the flags, the UID and the size of the message, each exactly if it was wanted, and whether a body follows |
| `FetchFormat.AnnouncedBack` | internal/imap/handler.go:228-228 | the announced length is read as printed |
| `FetchFormat.FetchNumbered` | internal/imap/handler.go:204-208 | the response's message number is read back |
| `FetchFormat.SearchNumbered` | internal/imap/handler.go:271-278 | SEARCH over n messages reads as 1..n |
| `Imap.Connection.constructor` | internal/imap/session.go:81-134 | a session starts not authenticated, with no user and no mailbox |
| `Imap.Connection.Transition` | internal/imap/session.go:180-190 | moves by the transition table or stays |
| `Imap.Connection.TransitionSelect` | internal/imap/session.go:194-199 | selecting again needs no transition |
| `Imap.Connection.HandleLogin` | internal/imap/handler.go:28-89 | state, port calls and responses after LOGIN, every refusal included |
| `Imap.Connection.HandleSelect` | internal/imap/handler.go:93-151 | ... after SELECT and EXAMINE |
| `Imap.Connection.HandleList` | internal/imap/handler.go:155-178 | ... after LIST and LSUB |
| `Imap.Connection.Render` | internal/imap/handler.go:207-231 | the response built item by item is the printed form |
| `Imap.Connection.HandleFetch` | internal/imap/handler.go:182-236 | ... after FETCH: the listing call, one body call for each message, one response for each message |
| `Imap.Connection.HandleStore` | internal/imap/handler.go:240-253 | ... after STORE |
| `Imap.Connection.HandleSearch` | internal/imap/handler.go:257-280 | ... after SEARCH |
| `Imap.Connection.HandleExpunge` | internal/imap/handler.go:284-297 | ... after EXPUNGE |
| `Imap.Connection.HandleClose` | internal/imap/handler.go:301-305 | ... after CLOSE |
| `Imap.Connection.HandleLogout` | internal/imap/handler.go:309-314 | ... after LOGOUT |
| `Imap.Connection.HandleStartTls` | internal/imap/handler.go:327-356 | ... after STARTTLS |
| `Imap.Connection.DispatchCommand` | internal/imap/session.go:223-287 | which handler each command reaches in each state |
| `Imap.Connection.Handle` | internal/imap/session.go:137-177 | the whole session writes the greeting and then exactly the responses of `Serve`, makes exactly its calls and ends in its state |
| `ImapCommands.ParseTagOnly` | internal/imap/session.go:162-166 | a line without a blank is all tag and has no command |
| `ImapCommands.ParseLine` | internal/imap/session.go:162-169 | a line is a tag, a command word in any case, and arguments, told apart by blanks |
| `ImapCommands.ParseShortLine` | internal/imap/session.go:162-169 | ... and without arguments when nothing follows the word |
| `ImapCommands.LoginArgs` | internal/imap/handler.go:29-38 | LOGIN takes a username and a password, with or without quotes, exactly when there are two arguments |
| `ImapCommands.SelectArgs` | internal/imap/handler.go:94-98 | SELECT and EXAMINE take the name between blanks and quotes, exactly when it is not empty |
| `ImapCommands.ListArgs` | internal/imap/handler.go:156-162 | LIST and LSUB take the second of two arguments, without quotes, as the pattern |
| `ImapCommands.FetchArgs` | internal/imap/handler.go:188-202 | FETCH takes the words of the second of two arguments |
| `ImapCommands.MatchesExact` | internal/imap/handler.go:172-172 | a name matches the patterns * and % and itself in any case, and nothing else |
| `ImapAnswers.EveryCommandConcludes` | internal/imap/session.go:223-287 | for every command in every state, the completion is OK, BAD or NO by if-and-only-if on the state, the arguments and what the ports answer; what a completed command says; LOGOUT alone ends the session, STARTTLS alone encrypts it |
| `ImapAnswers.StatusRead` | internal/imap/session.go:202-206 | a client reads the tag and the status from a tagged response |
| `ImapAnswers.OpenCode` | internal/imap/handler.go:140-144 | the completion of EXAMINE starts with [READ-ONLY], that of SELECT with [READ-WRITE] |
| `ImapRuns.StepKeeps` | internal/imap/session.go:223-287 | every command in every state keeps the session invariant and is answered as promised below |
| `ImapRuns.ReachableInv` | internal/imap/session.go:109-131 | in every reachable state but Logout: a mailbox is selected exactly in the Selected state, so the nil guards never fire (no session ever says so: `ImapRuns.EveryExchangeGood`); the user is the one who logged in; the mailbox is the one opened last, read-only exactly if EXAMINE opened it |
| `ImapRuns.EveryExchangeGood` | internal/imap/handler.go:28-314 | each non-empty line gets exactly one tagged response, its own tag, last; LOGIN succeeds at most once and only with the looked-up account and its password; mailboxes are looked up for that account only; SELECT and EXAMINE announce the count of the listing and the row found; FETCH and SEARCH list the mailbox opened last, completely and in order; STORE and EXPUNGE are refused exactly if EXAMINE opened it; the reply "No mailbox selected" is never sent |
| `ImapAnswers.LineRead` | internal/imap/session.go:149-158 | a line is read without its ending, CRLF or LF, and an empty one is passed over |
| `ImapAnswers.EveryLineAnswered` | internal/imap/session.go:137-177 | exchange n of a session is the server's answer to the n-th line, from a state of the invariant, and concludes as it should |
| `ImapAnswers.NoLineSkipped` | internal/imap/session.go:143-176 | a session that does not end by LOGOUT has answered every line it read |
| `ImapAnswers.EveryLineTold` | internal/imap/handler.go:28-236 | what a completed command did is what the text of its line says: the tag, the command, the account and password of LOGIN, the mailbox of SELECT and EXAMINE, the items of FETCH, the pattern of LIST |
| `ImapRuns.ListedExactly` | internal/imap/handler.go:171-175 | LIST names a mailbox exactly if the port named it and it matches the pattern |
| `ImapRuns.UserFixed` | internal/imap/handler.go:75-81 | the user never changes after LOGIN |
| `ImapRuns.OneTaggedOnWire` | internal/imap/session.go:202-213 | a client that looks for its tag finds it on the last response only, unless the tag is `*`, which the server accepts: then on every response |
| `ImapRuns.SummaryTells` | internal/imap/handler.go:132-138 | what SELECT and EXAMINE announce reads as the number of messages listed and the mailbox's UIDVALIDITY and UIDNEXT |
| `ImapRuns.NumbersAgree` | internal/imap/handler.go:204-278 | FETCH and SEARCH on the same listing number it 1..n alike |
| `MailSystem.SelectedOwned` | internal/imap/handler.go:80-129 | the selected mailbox belongs to the logged-in user, who is the user of the name given at LOGIN |
| `MailSystem.DeliveredToOwner` | internal/storage/message_store.go:50-90 | every message of a mailbox was delivered for an address of the mailbox's owner |
| `MailSystem.Ownership` | internal/imap/handler.go:196-278 | over all interleavings, every message a session shows in FETCH or counts in SEARCH was delivered for an address that resolves to its logged-in user |
| `MailSystem.ListedOwned` | internal/imap/handler.go:155-178 | LIST and LSUB name exactly the logged-in account's mailboxes that match the pattern |
| `MailSystem.DeliveredTerminated` | internal/smtp/handler.go:98-131 | every body delivered from an SMTP session is empty or ends in a line feed |
| `MailSystem.StoredAsSent` | internal/storage/message_store.go:76-87 | at every moment, every stored message records an event some SMTP session handed over: its sender, one of its recipients, the subject its header gives, its size, in that recipient's INBOX |
| `MailSystem.ShownBody` | internal/imap/handler.go:222-228 | FETCH prints the body the message's delivery carried, of the recorded size, or the placeholder |
| `ImapWording.QuotedPlain` | internal/imap/handler.go:173-173 | a quoted mailbox name stays on its line, whatever it holds |
| `ImapWording.QuotedReadBack` | internal/imap/handler.go:173-173 | a quoted name is read back, whatever characters it has |
| `ImapWording.TaggedPlain` | internal/imap/session.go:202-206 | every tagged response is one line that announces no literal, whatever the tag |
| `ImapWording.NotePlain` | internal/imap/handler.go:131-138 | so is every untagged response other than message data |
| `SessionStream.ExchangeReads` | internal/imap/handler.go:204-235 | every response of an exchange, FETCH responses with and without bodies included, is read as it was sent |
| `SessionStream.ItemsShown` | internal/imap/handler.go:207-219 | in every session, from each response to FETCH a client reads the flags, UID and size of the message as stored, each exactly if asked for |
| `SessionStream.SessionRead` | internal/imap/session.go:137-219 | in every IMAP session beside any deliveries, all bytes the server sends, greeting included, are read by a client of counted literals as exactly one response for each response sent, in order, every body byte for byte, with nothing left over |
| `MailSystem.EndToEnd` | internal/imap/handler.go:222-232 | a body that fits, dot-stuffed by a conforming sender, received by DATA, delivered, listed and still cached, is read back by an IMAP client byte for byte |

## Left out

- JMAP, the password hash and token code, configuration, listeners, deadlines, logging and `cmd/`: input and output plumbing, library calls, or straight maps over the listings above.
- `SetRateLimit`: no server calls it.
- Timestamps and session ids: no modelled decision depends on them.
- TLS handshakes and password checks: an arbitrary success or failure.
- The separate reader of the DATA loop: input is one stream of lines, so bytes read ahead by one reader and lost to the other are not modelled.
- Partial reads: a read gives a whole line ending in a line feed, or fails.
- SQL collation, connection pool, and the expiry clock: lookups compare names exactly; an expiry is an eviction at any moment.
- FETCH sequence sets, SEARCH criteria, and the effects of STORE and EXPUNGE: the source does not implement them, so only their responses are modelled.
- `Envelope.HasRecipients`: only a test calls it.
- Bytes outside ASCII: upper-casing and quoting are those of ASCII text.
- SessionStream.SessionRead: asks for a configured domain without a line feed, because the greeting prints it as it is.
- Storage.ExtractSubject: says nothing about folded or encoded headers, as the source treats neither.
- MailSystem.EndToEnd: needs the cache entry to be alive at the FETCH; without it the placeholder is shown (`MailSystem.ShownBody`).

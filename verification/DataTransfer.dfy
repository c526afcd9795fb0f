/** The DATA phase of SMTP: line reading, end marker, dot-unstuffing and the size limit,
    against a conforming sender and the standard receiver (section 4.5.2 of RFC 5321). */
module DataTransfer {
  import opened Text

  /** What `ReadString('\n')` returns without an error: exactly one newline, at the end. */
  ghost predicate IsLine(s: string) {
    s != "" && s[|s| - 1] == '\n' && forall i | 0 <= i < |s| - 1 :: s[i] != '\n'
  }

  type Line = s: string | IsLine(s) witness "\n"

  /** One call of `ReadString`: a line, or an error (disconnect, timeout). */
  datatype Read = Got(line: Line) | Failed

  /** How the DATA loop ends, with what it leaves unread. */
  datatype DataOutcome =
    | Accepted(body: string, rest: seq<Read>)
    | TooLarge(rest: seq<Read>)
    | Broken(rest: seq<Read>)

  predicate IsEndMarker(line: string) {
    line == ".\r\n" || line == ".\n"
  }

  /** The server's unstuffing: only a doubled leading dot loses one dot. */
  function Unstuff(line: string): string {
    if ".." <= line then line[1..] else line
  }

  function Receive(input: seq<Read>, maxSize: int, sofar: string): (o: DataOutcome)
    ensures |o.rest| <= |input|
    decreases |input|
  {
    if |input| == 0 then Broken([])
    else if input[0].Failed? then Broken(input[1..])
    else if IsEndMarker(input[0].line) then Accepted(sofar, input[1..])
    else
      var body := sofar + Unstuff(input[0].line);
      if |body| > maxSize then TooLarge(input[1..]) else Receive(input[1..], maxSize, body)
  }

  /** The loop as the server runs it, growing a buffer. */
  method ReadBody(input: seq<Read>, maxSize: int) returns (o: DataOutcome)
    ensures o == Receive(input, maxSize, "")
  {
    var body := "";
    var i := 0;
    while i < |input|
      invariant 0 <= i <= |input|
      invariant Receive(input, maxSize, "") == Receive(input[i..], maxSize, body)
    {
      var next := input[i..];
      assert next[0] == input[i] && next[1..] == input[i + 1..];
      i := i + 1;
      if next[0].Failed? {
        return Broken(input[i..]);
      }
      var line: string := next[0].line;
      if line == ".\r\n" || line == ".\n" {
        return Accepted(body, input[i..]);
      }
      if ".." <= line {
        line := line[1..];
      }
      body := body + line;
      if |body| > maxSize {
        return TooLarge(input[i..]);
      }
    }
    o := Broken([]);
  }

  // ---- The whole message, described without the loop ----

  /** The first end marker of the stream is its read number `k`, with no failed read before it. */
  ghost predicate EndsAt(input: seq<Read>, k: nat) {
    && k < |input|
    && (forall i | 0 <= i <= k :: input[i].Got?)
    && (forall i | 0 <= i < k :: !IsEndMarker(input[i].line))
    && IsEndMarker(input[k].line)
  }

  ghost predicate AllGot(input: seq<Read>) {
    forall i | 0 <= i < |input| :: input[i].Got?
  }

  /** Every line unstuffed by `unstuff`, in order. */
  ghost function Decode(input: seq<Read>, unstuff: string -> string): string
    requires AllGot(input)
  {
    if |input| == 0 then "" else unstuff(input[0].line) + Decode(input[1..], unstuff)
  }

  /** The read at which the line-by-line check trips: the first whose line takes the decoded prefix over the limit. */
  ghost predicate Trips(input: seq<Read>, maxSize: int, sofar: string, j: nat)
    requires j < |input| && AllGot(input)
  {
    && |sofar| + |Decode(input[..j + 1], Unstuff)| > maxSize
    && (j > 0 ==> |sofar| + |Decode(input[..j], Unstuff)| <= maxSize)
  }

  lemma DecodeStep(input: seq<Read>, i: nat)
    requires 0 < i <= |input| && AllGot(input)
    ensures Decode(input[..i], Unstuff) == Unstuff(input[0].line) + Decode(input[1..][..i - 1], Unstuff)
  {
    assert input[..i][1..] == input[1..][..i - 1];
  }

  lemma {:induction false} ReceiveWhole(input: seq<Read>, maxSize: int, sofar: string, k: nat)
    requires EndsAt(input, k)
    requires k == 0 || |sofar| + |Decode(input[..k], Unstuff)| <= maxSize
    ensures Receive(input, maxSize, sofar) == Accepted(sofar + Decode(input[..k], Unstuff), input[k + 1..])
    decreases k
  {
    if k > 0 {
      var body := sofar + Unstuff(input[0].line);
      DecodeStep(input[..k], k);
      assert input[..k][..k] == input[..k] && input[..k][1..][..k - 1] == input[1..][..k - 1];
      ReceiveWhole(input[1..], maxSize, body, k - 1);
      assert input[1..][k..] == input[k + 1..];
    }
  }

  lemma {:induction false} ReceiveTrips(input: seq<Read>, maxSize: int, sofar: string, k: nat) returns (j: nat)
    requires EndsAt(input, k) && k > 0
    requires |sofar| + |Decode(input[..k], Unstuff)| > maxSize
    ensures j < k && Trips(input[..k], maxSize, sofar, j)
    ensures Receive(input, maxSize, sofar) == TooLarge(input[j + 1..])
    decreases k
  {
    var body, tail, lines := sofar + Unstuff(input[0].line), input[1..], input[..k];
    assert lines[1..] == tail[..k - 1];
    DecodeStep(lines, 1);
    if |body| > maxSize {
      j := 0;
    } else {
      assert lines[..k] == lines && lines[1..][..k - 1] == lines[1..];
      DecodeStep(lines, k);
      var i := ReceiveTrips(tail, maxSize, body, k - 1);
      j := i + 1;
      DecodeStep(lines, j);
      DecodeStep(lines, j + 1);
      assert tail[i + 1..] == input[j + 1..];
    }
  }

  /** Size decision, for every stream with an end marker and every limit: 552 exactly when there is a body line and
      the whole decoded body is over the limit; an accepted message takes the lines through the first end marker. */
  lemma SizeDecision(input: seq<Read>, maxSize: int, k: nat)
    requires EndsAt(input, k)
    ensures var o, whole := Receive(input, maxSize, ""), Decode(input[..k], Unstuff);
            && (o.TooLarge? <==> k > 0 && |whole| > maxSize)
            && (maxSize >= 0 ==> (o.TooLarge? <==> |whole| > maxSize))
            && (o.Accepted? <==> !o.TooLarge?)
            && (o.Accepted? ==> o == Accepted(whole, input[k + 1..]))
            && (o.TooLarge? ==> exists j | 0 <= j < k :: Trips(input[..k], maxSize, "", j) && o.rest == input[j + 1..])
  {
    if k == 0 || |Decode(input[..k], Unstuff)| <= maxSize {
      ReceiveWhole(input, maxSize, "", k);
    } else {
      var j := ReceiveTrips(input, maxSize, "", k);
    }
  }

  /** Acceptance needs an end marker, so every accepted message is described by `SizeDecision`. */
  lemma {:induction false} AcceptedHasMarker(input: seq<Read>, maxSize: int, sofar: string) returns (k: nat)
    requires Receive(input, maxSize, sofar).Accepted?
    ensures EndsAt(input, k)
    decreases |input|
  {
    if IsEndMarker(input[0].line) {
      k := 0;
    } else {
      var j := AcceptedHasMarker(input[1..], maxSize, sofar + Unstuff(input[0].line));
      k := j + 1;
    }
  }

  /** Read number `k` fails, or the stream ends there, with no end marker before it. */
  ghost predicate FailsAt(input: seq<Read>, k: nat) {
    && k <= |input|
    && (k < |input| ==> input[k].Failed?)
    && (forall i | 0 <= i < k :: input[i].Got? && !IsEndMarker(input[i].line))
  }

  /** What was read before a failure at `k` is within the limit. */
  ghost predicate Within(input: seq<Read>, maxSize: int, sofar: string, k: nat)
    requires k <= |input| && AllGot(input[..k])
  {
    k == 0 || |sofar| + |Decode(input[..k], Unstuff)| <= maxSize
  }

  lemma WithinStep(input: seq<Read>, maxSize: int, sofar: string, k: nat)
    requires 0 < k <= |input| && AllGot(input[..k])
    ensures |sofar| + |Decode(input[..k], Unstuff)|
            == |sofar + Unstuff(input[0].line)| + |Decode(input[1..][..k - 1], Unstuff)|
  {
    var lines := input[..k];
    DecodeStep(lines, k);
    assert lines[..k] == lines && lines[1..][..k - 1] == input[1..][..k - 1];
  }

  lemma {:induction false} BrokenFails(input: seq<Read>, maxSize: int, sofar: string) returns (k: nat)
    requires Receive(input, maxSize, sofar).Broken?
    ensures FailsAt(input, k) && Within(input, maxSize, sofar, k)
    decreases |input|
  {
    if |input| == 0 || input[0].Failed? {
      k := 0;
    } else {
      var body := sofar + Unstuff(input[0].line);
      var j := BrokenFails(input[1..], maxSize, body);
      k := j + 1;
      WithinStep(input, maxSize, sofar, k);
      assert j == 0 ==> input[1..][..j] == [];
    }
  }

  lemma {:induction false} FailsBroken(input: seq<Read>, maxSize: int, sofar: string, k: nat)
    requires FailsAt(input, k) && Within(input, maxSize, sofar, k)
    ensures Receive(input, maxSize, sofar).Broken?
    decreases k
  {
    if k > 0 {
      WithinStep(input, maxSize, sofar, k);
      FailsBroken(input[1..], maxSize, sofar + Unstuff(input[0].line), k - 1);
    }
  }

  /** The loop ends without a verdict exactly when a read fails before an end marker and before the limit is passed. */
  lemma BrokenExact(input: seq<Read>, maxSize: int)
    ensures Receive(input, maxSize, "").Broken? <==> exists k :: FailsAt(input, k) && Within(input, maxSize, "", k)
  {
    if Receive(input, maxSize, "").Broken? {
      var k := BrokenFails(input, maxSize, "");
    }
    forall k | FailsAt(input, k) && Within(input, maxSize, "", k) ensures Receive(input, maxSize, "").Broken? {
      FailsBroken(input, maxSize, "", k);
    }
  }

  /** Empty, or ending in a newline. */
  predicate Terminated(body: string) {
    body == "" || body[|body| - 1] == '\n'
  }

  lemma {:induction false} DecodeTerminated(input: seq<Read>)
    requires AllGot(input)
    ensures Terminated(Decode(input, Unstuff))
  {
    if |input| > 0 {
      DecodeTerminated(input[1..]);
    }
  }

  /** What the rest of the system relies on: an accepted body is empty or ends in a newline,
      and respects a non-negative limit. */
  lemma AcceptedBody(input: seq<Read>, maxSize: int)
    requires Receive(input, maxSize, "").Accepted?
    ensures Terminated(Receive(input, maxSize, "").body)
    ensures maxSize >= 0 ==> |Receive(input, maxSize, "").body| <= maxSize
  {
    var k := AcceptedHasMarker(input, maxSize, "");
    SizeDecision(input, maxSize, k);
    DecodeTerminated(input[..k]);
  }

  // ---- A conforming sender ----

  function Stuff(line: string): string {
    if "." <= line then "." + line else line
  }

  lemma StuffKeepsLine(line: Line)
    ensures IsLine(Stuff(line))
    ensures !IsEndMarker(Stuff(line))
    ensures Unstuff(Stuff(line)) == line
    ensures StandardUnstuff(Stuff(line)) == line
  {
    if "." <= line {
      assert Stuff(line)[1..] == line;
      assert ".." <= Stuff(line);
    }
  }

  /** Where the first line of a body ends. */
  ghost function LineEnd(body: string): (n: nat)
    requires Terminated(body) && body != ""
    ensures 0 < n <= |body| && IsLine(body[..n]) && Terminated(body[n..])
  {
    IndexOf(body, '\n') + 1
  }

  /** The lines of a terminated body, each with its newline. */
  ghost function BodyLines(body: string): (ls: seq<Line>)
    requires Terminated(body)
    decreases |body|
  {
    if body == "" then [] else [body[..LineEnd(body)]] + BodyLines(body[LineEnd(body)..])
  }

  /** What a conforming sender transmits: each line stuffed, then the end marker. */
  ghost function Transmit(body: string): seq<Read>
    requires Terminated(body)
  {
    Stuffed(BodyLines(body)) + [Got(".\r\n")]
  }

  ghost function Stuffed(lines: seq<Line>): (r: seq<Read>)
    ensures |r| == |lines| && AllGot(r)
    ensures forall i | 0 <= i < |r| :: r[i].line == Stuff(lines[i]) && !IsEndMarker(r[i].line)
  {
    if |lines| == 0 then [] else
      StuffKeepsLine(lines[0]);
      [Got(Stuff(lines[0]))] + Stuffed(lines[1..])
  }

  lemma DecodeCons(first: Read, rest: seq<Read>, unstuff: string -> string)
    requires first.Got? && AllGot(rest)
    ensures Decode([first] + rest, unstuff) == unstuff(first.line) + Decode(rest, unstuff)
  {
    assert ([first] + rest)[1..] == rest;
  }

  ghost function Concat(lines: seq<Line>): string {
    if |lines| == 0 then "" else lines[0] + Concat(lines[1..])
  }

  lemma {:induction false} ConcatCons(first: Line, more: seq<Line>)
    ensures Concat([first] + more) == first + Concat(more)
  {
    assert ([first] + more)[1..] == more;
  }

  lemma {:induction false} LinesMakeBody(body: string)
    requires Terminated(body)
    ensures Concat(BodyLines(body)) == body
    decreases |body|
  {
    if body != "" {
      var n := LineEnd(body);
      LinesMakeBody(body[n..]);
      ConcatCons(body[..n], BodyLines(body[n..]));
      SplitAt(body, n);
    }
  }

  lemma SplitAt(s: string, n: nat)
    requires n <= |s|
    ensures s == s[..n] + s[n..]
  {
  }

  /** Both receivers undo the stuffing. */
  lemma {:induction false} StuffedDecodes(lines: seq<Line>, unstuff: string -> string)
    requires unstuff == Unstuff || unstuff == StandardUnstuff
    ensures Decode(Stuffed(lines), unstuff) == Concat(lines)
  {
    if |lines| > 0 {
      StuffKeepsLine(lines[0]);
      StuffedDecodes(lines[1..], unstuff);
      DecodeCons(Got(Stuff(lines[0])), Stuffed(lines[1..]), unstuff);
    }
  }

  /** Round trip: a conforming sender's body that fits arrives byte for byte, and exactly its lines are consumed. */
  lemma TransmitReceive(body: string, maxSize: int, rest: seq<Read>)
    requires Terminated(body) && |body| <= maxSize
    ensures Receive(Transmit(body) + rest, maxSize, "") == Accepted(body, rest)
  {
    var sent, k := Stuffed(BodyLines(body)), |BodyLines(body)|;
    var input := Transmit(body) + rest;
    assert input[..k] == sent;
    assert input[k + 1..] == rest;
    assert EndsAt(input, k);
    StuffedDecodes(BodyLines(body), Unstuff);
    LinesMakeBody(body);
    SizeDecision(input, maxSize, k);
  }

  /** On everything a conforming sender transmits, the server and the standard receiver decode the same: the body. */
  lemma SenderOutputAgrees(body: string)
    requires Terminated(body)
    ensures var sent := Stuffed(BodyLines(body));
            Decode(sent, Unstuff) == Decode(sent, StandardUnstuff) == body
  {
    StuffedDecodes(BodyLines(body), Unstuff);
    StuffedDecodes(BodyLines(body), StandardUnstuff);
    LinesMakeBody(body);
  }

  // ---- The standard receiver ----

  /** Section 4.5.2 of RFC 5321: a leading dot with other characters after it is deleted. */
  function StandardUnstuff(line: string): string {
    if "." <= line && |line| > 1 then line[1..] else line
  }

  /** A line on which server and standard differ: a leading dot that is not doubled. */
  predicate LoneDot(line: string) {
    "." <= line && |line| > 1 && !(".." <= line)
  }

  ghost function LoneDots(input: seq<Read>): nat
    requires AllGot(input)
  {
    if |input| == 0 then 0 else (if LoneDot(input[0].line) then 1 else 0) + LoneDots(input[1..])
  }

  /** The server's decoding is longer than the standard's by one byte per undoubled leading dot. */
  lemma {:induction false} DecodingGap(input: seq<Read>)
    requires AllGot(input)
    ensures |Decode(input, Unstuff)| == |Decode(input, StandardUnstuff)| + LoneDots(input)
    ensures LoneDots(input) == 0 ==> Decode(input, Unstuff) == Decode(input, StandardUnstuff)
    ensures LoneDots(input) == 0 <==> forall i | 0 <= i < |input| :: !LoneDot(input[i].line)
  {
    if |input| > 0 {
      DecodingGap(input[1..]);
      assert forall i | 1 <= i < |input| :: input[i] == input[1..][i - 1];
    }
  }

  /** The server decodes a message as the standard says exactly when no line of it starts with an undoubled dot. */
  lemma AgreesWithStandard(input: seq<Read>, k: nat)
    requires EndsAt(input, k)
    ensures Decode(input[..k], Unstuff) == Decode(input[..k], StandardUnstuff)
            <==> forall i | 0 <= i < k :: !LoneDot(input[i].line)
  {
    DecodingGap(input[..k]);
    assert forall i | 0 <= i < k :: input[..k][i] == input[i];
  }

  lemma DecodeOne(read: Read, unstuff: string -> string)
    requires read.Got?
    ensures Decode([read], unstuff) == unstuff(read.line)
  {
    assert [read][1..] == [];
    assert unstuff(read.line) + "" == unstuff(read.line);
  }

  /** They do differ: a body of one line with an undoubled dot. */
  lemma LoneDotDiffers()
    ensures var input := [Got(".a\n"), Got(".\n")];
            && EndsAt(input, 1)
            && Receive(input, 100, "") == Accepted(".a\n", [])
            && Decode(input[..1], StandardUnstuff) == "a\n"
  {
    var input := [Got(".a\n"), Got(".\n")];
    var lines := input[..1];
    assert lines == [Got(".a\n")];
    DecodeOne(lines[0], Unstuff);
    DecodeOne(lines[0], StandardUnstuff);
    assert ".a\n"[1..] == "a\n";
    ReceiveWhole(input, 100, "", 1);
    assert input[2..] == [];
  }
}

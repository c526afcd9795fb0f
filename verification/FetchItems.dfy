/** A client that reads the items of a FETCH response from its text, and what it finds. */
module FetchItems {
  import opened Text
  import opened Storage
  import opened FetchFormat

  // ---- What a FETCH asks for ----

  /** The items a FETCH asks for are told by the words in its arguments, in any case. */
  lemma WantsExact(items: string)
    ensures var wants := WantsOf(ToUpper(items));
            && (wants.flags <==> Mentions(items, "FLAGS"))
            && (wants.uid <==> Mentions(items, "UID"))
            && (wants.size <==> Mentions(items, "RFC822.SIZE"))
            && (wants.body <==> Mentions(items, "BODY[]") || Mentions(items, "RFC822"))
  {
    UpperContains(items, "FLAGS");
    UpperContains(items, "UID");
    UpperContains(items, "RFC822.SIZE");
    UpperContains(items, "BODY[]");
    UpperContains(items, "RFC822");
  }

  // ---- The client ----

  /** What a client has read of a response. */
  datatype Seen = Seen(flags: Option<string>, uid: Option<nat>, size: Option<nat>, body: bool)

  const NOTHING := Seen(None, None, None, false)

  /** The items from the start of `s` up to the closing parenthesis or the announcement of a body. */
  function ReadItems(s: string, got: Seen): Option<Seen>
    decreases |s|
  {
    if ")" <= s then Some(got)
    else if "BODY[] {" <= s then Some(got.(body := true))
    else if "FLAGS (" <= s then
      var (flags, rest, closed) := Cut(s[7..], ')');
      if closed then ReadItems(SkipBlank(rest), got.(flags := Some(flags))) else None
    else if "UID " <= s then
      var n := DigitsEnd(s, 4);
      ReadItems(SkipBlank(s[n..]), got.(uid := Some(ParseDec(s[4..n]))))
    else if "RFC822.SIZE " <= s then
      var n := DigitsEnd(s, 12);
      ReadItems(SkipBlank(s[n..]), got.(size := Some(ParseDec(s[12..n]))))
    else None
  }

  function SkipBlank(s: string): (r: string)
    ensures |r| <= |s|
  {
    if " " <= s then s[1..] else s
  }

  /** The items of a response after its opening parenthesis. */
  function ReadAttributes(text: string): Option<Seen> {
    var (_, items, found) := Cut(text, '(');
    if found then ReadItems(items, NOTHING) else None
  }

  // ---- Reading one item ----

  lemma UidRead(n: nat, rest: string, got: Seen)
    requires rest != "" ==> !IsDigit(rest[0])
    ensures ReadItems(UidItem(n) + rest, got) == ReadItems(SkipBlank(rest), got.(uid := Some(n)))
  {
    var s := UidItem(n) + rest;
    assert s[0] == 'U' && "UID " <= s;
    NumberRead("UID ", n, rest);
  }

  lemma SizeRead(n: nat, rest: string, got: Seen)
    requires rest != "" ==> !IsDigit(rest[0])
    ensures ReadItems(SizeItem(n) + rest, got) == ReadItems(SkipBlank(rest), got.(size := Some(n)))
  {
    var s := SizeItem(n) + rest;
    assert s[0] == 'R' && "RFC822.SIZE " <= s;
    NumberRead("RFC822.SIZE ", n, rest);
  }

  lemma FlagsRead(flags: string, rest: string, got: Seen)
    requires Lacks(flags, ')')
    ensures ReadItems(FlagsItem(flags) + rest, got) == ReadItems(SkipBlank(rest), got.(flags := Some(flags)))
  {
    var s := FlagsItem(flags) + rest;
    assert s[0] == 'F' && "FLAGS (" <= s;
    var t := s[7..];
    assert t == flags + ")" + rest;
    assert forall j | 0 <= j < |flags| :: t[j] == flags[j];
    IndexOfUnique(t, ')', |flags|);
    assert t[..|flags|] == flags && t[|flags| + 1..] == rest;
  }

  lemma BodyRead(rest: string, got: Seen)
    ensures ReadItems("BODY[] {" + rest, got) == Some(got.(body := true))
  {
    var s := "BODY[] {" + rest;
    assert s[0] == 'B' && "BODY[] {" <= s;
  }

  lemma EndRead(rest: string, got: Seen)
    ensures ReadItems(")" + rest, got) == Some(got)
  {
    assert ")" <= ")" + rest;
  }

  // ---- Reading them in a row ----

  lemma BlankBetween(text: string, x: string)
    ensures Item(true, text) + x == text + (" " + x) && SkipBlank(" " + x) == x
  {
    assert (" " + x)[1..] == x;
  }

  lemma FlagsItemRead(wanted: bool, flags: string, x: string, got: Seen)
    requires Lacks(flags, ')')
    ensures ReadItems(Item(wanted, FlagsItem(flags)) + x, got)
            == ReadItems(x, if wanted then got.(flags := Some(flags)) else got)
  {
    if wanted {
      BlankBetween(FlagsItem(flags), x);
      FlagsRead(flags, " " + x, got);
    } else {
      assert "" + x == x;
    }
  }

  lemma UidItemRead(wanted: bool, uid: nat, x: string, got: Seen)
    ensures ReadItems(Item(wanted, UidItem(uid)) + x, got)
            == ReadItems(x, if wanted then got.(uid := Some(uid)) else got)
  {
    if wanted {
      BlankBetween(UidItem(uid), x);
      UidRead(uid, " " + x, got);
    } else {
      assert "" + x == x;
    }
  }

  lemma SizeItemRead(wanted: bool, size: nat, x: string, got: Seen)
    ensures ReadItems(Item(wanted, SizeItem(size)) + x, got)
            == ReadItems(x, if wanted then got.(size := Some(size)) else got)
  {
    if wanted {
      BlankBetween(SizeItem(size), x);
      SizeRead(size, " " + x, got);
    } else {
      assert "" + x == x;
    }
  }

  /** What a client should see. */
  function Told(m: Message, wants: Wants): Seen {
    Seen(if wants.flags then Some(m.flags) else None, if wants.uid then Some(m.uid) else None,
         if wants.size then Some(m.sizeBytes) else None, wants.body)
  }

  /** All items and then a body. */
  lemma ReadThenBody(m: Message, wants: Wants, rest: string)
    requires wants.body && Lacks(m.flags, ')')
    ensures ReadItems(Items(m, wants) + ("BODY[] {" + rest), NOTHING) == Some(Told(m, wants))
  {
    var f, u, z := Item(wants.flags, FlagsItem(m.flags)), Item(wants.uid, UidItem(m.uid)),
        Item(wants.size, SizeItem(m.sizeBytes));
    var x := "BODY[] {" + rest;
    Regroup(f + u, z, x);
    Regroup(f, u, z + x);
    FlagsItemRead(wants.flags, m.flags, u + (z + x), NOTHING);
    var got := if wants.flags then NOTHING.(flags := Some(m.flags)) else NOTHING;
    UidItemRead(wants.uid, m.uid, z + x, got);
    var more := if wants.uid then got.(uid := Some(m.uid)) else got;
    SizeItemRead(wants.size, m.sizeBytes, x, more);
    BodyRead(rest, if wants.size then more.(size := Some(m.sizeBytes)) else more);
  }

  /** The items without the blank after the last. */
  function Row(f: bool, flags: string, u: bool, uid: string, z: bool, size: string): string {
    if z then Item(f, flags) + Item(u, uid) + size
    else if u then Item(f, flags) + uid
    else if f then flags
    else ""
  }

  function RowOf(m: Message, wants: Wants): string {
    Row(wants.flags, FlagsItem(m.flags), wants.uid, UidItem(m.uid), wants.size, SizeItem(m.sizeBytes))
  }

  predicate Solid(s: string) {
    s != "" && s[|s| - 1] != ' '
  }

  lemma TrimOne(start: string, text: string)
    requires Solid(text)
    ensures TrimRight(start + (text + " "), BLANKS) == start + text
  {
    var s := start + (text + " ");
    assert s[|start + text| - 1] == text[|text| - 1];
    KeptIs(s, |s|, BLANKS, |start + text|);
    assert s[..|start + text|] == start + text;
  }

  lemma TrimNone(start: string)
    requires Solid(start)
    ensures TrimRight(start, BLANKS) == start
  {
    KeptIs(start, |start|, BLANKS, |start|);
  }

  /** Trimming takes the blank after the last item. */
  lemma TrimRow(start: string, f: bool, flags: string, u: bool, uid: string, z: bool, size: string)
    requires Solid(start) && Solid(flags) && Solid(uid) && Solid(size)
    ensures TrimRight(start + (Item(f, flags) + Item(u, uid) + Item(z, size)), BLANKS)
            == start + Row(f, flags, u, uid, z, size)
  {
    var all := Item(f, flags) + Item(u, uid) + Item(z, size);
    if z {
      Regroup(Item(f, flags) + Item(u, uid), size, " ");
      SolidPlus(Item(f, flags) + Item(u, uid), size);
      TrimOne(start, Item(f, flags) + Item(u, uid) + size);
    } else if u {
      assert all == Item(f, flags) + (uid + " ");
      Regroup(Item(f, flags), uid, " ");
      SolidPlus(Item(f, flags), uid);
      TrimOne(start, Item(f, flags) + uid);
    } else if f {
      assert all == flags + " ";
      TrimOne(start, flags);
    } else {
      assert all == "" && start + all == start && start + "" == start;
      TrimNone(start);
    }
  }

  lemma SolidPlus(a: string, b: string)
    requires Solid(b)
    ensures Solid(a + b)
  {
  }

  lemma NoBlankBeforeEnd()
    ensures SkipBlank(")") == ")"
  {
    assert ")"[0] == ')' && " "[0] == ' ';
  }

  /** All items and then the closing parenthesis. */
  lemma ReadThenEnd(m: Message, wants: Wants)
    requires !wants.body && Lacks(m.flags, ')')
    ensures ReadItems(RowOf(m, wants) + ")", NOTHING) == Some(Told(m, wants))
  {
    var f, u := Item(wants.flags, FlagsItem(m.flags)), Item(wants.uid, UidItem(m.uid));
    var got := if wants.flags then NOTHING.(flags := Some(m.flags)) else NOTHING;
    var more := if wants.uid then got.(uid := Some(m.uid)) else got;
    NoBlankBeforeEnd();
    assert ")" + "" == ")";
    if wants.size {
      Regroup(f + u, SizeItem(m.sizeBytes), ")");
      Regroup(f, u, SizeItem(m.sizeBytes) + ")");
      FlagsItemRead(wants.flags, m.flags, u + (SizeItem(m.sizeBytes) + ")"), NOTHING);
      UidItemRead(wants.uid, m.uid, SizeItem(m.sizeBytes) + ")", got);
      SizeRead(m.sizeBytes, ")", more);
      EndRead("", more.(size := Some(m.sizeBytes)));
    } else if wants.uid {
      Regroup(f, UidItem(m.uid), ")");
      FlagsItemRead(wants.flags, m.flags, UidItem(m.uid) + ")", NOTHING);
      UidRead(m.uid, ")", got);
      EndRead("", more);
    } else if wants.flags {
      FlagsRead(m.flags, ")", NOTHING);
      EndRead("", got);
    } else {
      assert "" + ")" == ")";
      EndRead("", NOTHING);
    }
  }

  // ---- The whole response ----

  lemma AfterParen(start: string, items: string)
    requires Lacks(start, '(')
    ensures ReadAttributes(start + "(" + items) == ReadItems(items, NOTHING)
  {
    var text := start + "(" + items;
    assert forall j | 0 <= j < |start| :: text[j] == start[j];
    IndexOfUnique(text, '(', |start|);
    assert text[|start| + 1..] == items;
  }

  lemma StartLacks(number: nat)
    ensures Lacks(Dec(number) + " FETCH ", '(') && Dec(number) + " FETCH (" == Dec(number) + " FETCH " + "("
  {
    LacksPlus(Dec(number), " FETCH ", '(');
  }

  lemma ItemsSolid(flags: string, uid: nat, size: nat)
    ensures Solid(FlagsItem(flags)) && Solid(UidItem(uid)) && Solid(SizeItem(size))
  {
    var u, z := Dec(uid), Dec(size);
    assert IsDigit(u[|u| - 1]) && IsDigit(z[|z| - 1]);
    SolidPlus("UID ", u);
    SolidPlus("RFC822.SIZE ", z);
    SolidPlus("FLAGS (" + flags, ")");
  }

  /** From a FETCH response a client reads the flags, the UID and the size of the message, each exactly if it was
      asked for, and whether a body follows. */
  lemma AttributesRead(number: nat, m: Message, wants: Wants, body: Option<string>)
    requires Lacks(m.flags, ')')
    ensures ReadAttributes(FetchText(number, m, wants, body)) == Some(Told(m, wants))
  {
    var start := Dec(number) + " FETCH ";
    StartLacks(number);
    if wants.body {
      BodyShape(number, m, wants, Shown(body));
      var rest := Dec(|Shown(body)|) + "}" + CRLF + (TrimRight(Shown(body), BLANKS) + ")");
      AfterParen(start, Items(m, wants) + ("BODY[] {" + rest));
      ReadThenBody(m, wants, rest);
    } else {
      var row := RowOf(m, wants);
      RowShape(number, m, wants, body);
      AfterParen(start, row + ")");
      ReadThenEnd(m, wants);
    }
  }

  lemma RowShape(number: nat, m: Message, wants: Wants, body: Option<string>)
    requires !wants.body
    ensures FetchText(number, m, wants, body)
            == Dec(number) + " FETCH " + "("
               + (RowOf(m, wants) + ")")
  {
    var start := Dec(number) + " FETCH (";
    StartLacks(number);
    ItemsSolid(m.flags, m.uid, m.sizeBytes);
    SolidPlus(Dec(number), " FETCH (");
    assert FetchFormat.Attributes(number, m, wants) + "" == start + Items(m, wants);
    TrimRow(start, wants.flags, FlagsItem(m.flags), wants.uid, UidItem(m.uid), wants.size, SizeItem(m.sizeBytes));
    Regroup(start, RowOf(m, wants), ")");
  }

  lemma BodyShape(number: nat, m: Message, wants: Wants, b: string)
    requires wants.body
    ensures FetchText(number, m, wants, Some(b))
            == Dec(number) + " FETCH " + "("
               + (Items(m, wants) + ("BODY[] {" + (Dec(|b|) + "}" + CRLF + (TrimRight(b, BLANKS) + ")"))))
  {
    StartLacks(number);
    BodyParts(Dec(number) + " FETCH (", Items(m, wants), "BODY[] {", Dec(|b|), "}", b);
  }

  lemma BodyParts(start: string, items: string, a: string, b: string, c: string, body: string)
    ensures TrimRight(start + items + (a + b + c + CRLF + body + " "), BLANKS) + ")"
            == start + (items + (a + (b + c + CRLF + (TrimRight(body, BLANKS) + ")"))))
  {
    var printed := TrimRight(start + items + (a + b + c + CRLF + body + " "), BLANKS) + ")";
    WireShape("", start + items, a + b + c, body);
    assert "" + printed == printed;
    FiveParts(start, items, a, b, c, CRLF, TrimRight(body, BLANKS) + ")");
  }

  lemma FiveParts(start: string, items: string, a: string, b: string, c: string, d: string, e: string)
    ensures "" + (start + items) + (a + b + c) + d + e == start + (items + (a + (b + c + d + e)))
  {
  }
}

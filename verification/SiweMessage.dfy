/**
 * The sign-in message of ERC-4361: how the server prints it and how it reads the fields back to check
 * them.  Lower-casing and the ISO text of a time are left open; the origin is given as it is resolved.
 */
module SiweMessage {
  import opened Prelude
  import opened Splitting

  const NONCE_TTL := 300000
  const MARK := " wants you to sign in"
  const GREETING_END := " with your Ethereum account:"
  const STATEMENT := "Sign in to Prismix"
  const CHAIN_ID := "8453"

  /** The white space that trimming removes. */
  predicate IsSpace(c: char) {
    var n := c as int;
    9 <= n <= 13 || n == 0x20 || n == 0xA0 || n == 0x1680 || 0x2000 <= n <= 0x200A ||
    n == 0x2028 || n == 0x2029 || n == 0x202F || n == 0x205F || n == 0x3000 || n == 0xFEFF
  }

  function TrimStart(s: string): string {
    if s != "" && IsSpace(s[0]) then TrimStart(s[1..]) else s
  }

  function TrimEnd(s: string): string {
    if s != "" && IsSpace(s[|s| - 1]) then TrimEnd(s[..|s| - 1]) else s
  }

  function Trim(s: string): string {
    TrimEnd(TrimStart(s))
  }

  predicate Trimmed(s: string) {
    s == "" || (!IsSpace(s[0]) && !IsSpace(s[|s| - 1]))
  }

  predicate NoSpace(s: string) {
    forall i :: 0 <= i < |s| ==> !IsSpace(s[i])
  }

  datatype Origin = Origin(messageOrigin: string, uri: string)

  /** Lower-casing, and printing and reading a time. */
  datatype Texts = Texts(lower: string -> string, iso: int -> string, time: string -> Option<int>)

  ghost predicate Sound(x: Texts) {
    forall t :: x.time(x.iso(t)) == Some(t) && NoSpace(x.iso(t)) && x.iso(t) != ""
  }

  // ---------------------------------------------------------------------------------------------
  // Printing.
  // ---------------------------------------------------------------------------------------------

  datatype FieldLine = FieldLine(name: string, value: string)

  function Fields(x: Texts, nonce: string, origin: Origin, now: int): seq<FieldLine> {
    [FieldLine("URI:", origin.uri),
     FieldLine("Version:", "1"),
     FieldLine("Chain ID:", CHAIN_ID),
     FieldLine("Nonce:", nonce),
     FieldLine("Issued At:", x.iso(now)),
     FieldLine("Expiration Time:", x.iso(now + NONCE_TTL))]
  }

  function PrintFields(fields: seq<FieldLine>): seq<string> {
    if fields == [] then [] else [fields[0].name + " " + fields[0].value] + PrintFields(fields[1..])
  }

  /** The lines below the address. */
  function Below(x: Texts, nonce: string, origin: Origin, now: int): seq<string> {
    ["", STATEMENT, ""] + PrintFields(Fields(x, nonce, origin, now))
  }

  function MessageLines(x: Texts, address: string, nonce: string, origin: Origin, now: int): seq<string> {
    [origin.messageOrigin + MARK + GREETING_END, address] + Below(x, nonce, origin, now)
  }

  function BuildSiweMessage(x: Texts, address: string, nonce: string, origin: Origin, now: int): string {
    Join(MessageLines(x, address, nonce, origin, now), '\n')
  }

  // ---------------------------------------------------------------------------------------------
  // Reading.
  // ---------------------------------------------------------------------------------------------

  /** The rest of the first line that starts with the prefix. */
  function Field(lines: seq<string>, prefix: string): Option<string> {
    if lines == [] then None
    else if prefix <= Trim(lines[0]) then Some(Trim(Trim(lines[0])[|prefix|..]))
    else Field(lines[1..], prefix)
  }

  method ExtractSiweField(message: string, prefix: string) returns (r: Option<string>)
    ensures r == Field(Split(message, '\n'), prefix)
  {
    var lines := Split(message, '\n');
    for i := 0 to |lines|
      invariant Field(lines[i..], prefix) == Field(lines, prefix)
    {
      assert lines[i..][0] == lines[i] && lines[i..][1..] == lines[i + 1..];
      var trimmed := Trim(lines[i]);
      if prefix <= trimmed {
        return Some(Trim(trimmed[|prefix|..]));
      }
    }
    return None;
  }

  /** What stands before the first occurrence of a mark; everything if there is none. */
  function Before(text: string, mark: string): string {
    if mark <= text || text == "" then "" else [text[0]] + Before(text[1..], mark)
  }

  datatype Reason =
    | NoNonce | NonceMismatch | AddressMismatch | WrongChain | BadOrigin
    | DomainMismatch | UriMismatch | MessageExpired | BadSignature

  datatype Verdict = Verified | Refused(reason: Reason)

  function NotExpired(x: Texts, field: Option<string>, now: int): bool {
    field.None? || field.value == "" || (x.time(field.value).Some? && x.time(field.value).value >= now)
  }

  /** What the checks look at in a message. */
  datatype Parsed = Parsed(
    nonce: Option<string>, address: Option<string>, chainId: Option<string>,
    messageOrigin: string, uri: Option<string>, expiration: Option<string>)

  function Parse(lines: seq<string>): Parsed
    requires lines != []
  {
    Parsed(Field(lines, "Nonce:"),
           if |lines| >= 2 then Some(Trim(lines[1])) else None,
           Field(lines, "Chain ID:"),
           Before(lines[0], MARK),
           Field(lines, "URI:"),
           Field(lines, "Expiration Time:"))
  }

  /** The checks, in order, once the server's nonce is known. */
  function Check(x: Texts, address: string, m: Parsed, nonce: string, origin: Option<Origin>, now: int): Verdict {
    if m.nonce != Some(nonce) then Refused(NonceMismatch)
    else if m.address.None? || x.lower(m.address.value) != x.lower(address) then Refused(AddressMismatch)
    else if m.chainId != Some(CHAIN_ID) then Refused(WrongChain)
    else if origin.None? then Refused(BadOrigin)
    else if m.messageOrigin != origin.value.messageOrigin then Refused(DomainMismatch)
    else if m.uri != Some(origin.value.uri) then Refused(UriMismatch)
    else if !NotExpired(x, m.expiration, now) then Refused(MessageExpired)
    else Verified
  }

  function CheckMessage(
      x: Texts, address: string, message: string, nonce: string, origin: Option<Origin>, now: int): Verdict {
    Check(x, address, Parse(Split(message, '\n')), nonce, origin, now)
  }

  /** What a message must satisfy for the checks to pass, in the order in which they are made. */
  ghost function Conditions(x: Texts, address: string, message: string, nonce: string, origin: Option<Origin>, now: int)
    : seq<(bool, Reason)>
  {
    var lines := Split(message, '\n');
    var expiration := Field(lines, "Expiration Time:");
    [(Field(lines, "Nonce:") == Some(nonce), NonceMismatch),
     (|lines| >= 2 && x.lower(Trim(lines[1])) == x.lower(address), AddressMismatch),
     (Field(lines, "Chain ID:") == Some("8453"), WrongChain),
     (origin.Some?, BadOrigin),
     (origin.Some? && Before(lines[0], MARK) == origin.value.messageOrigin, DomainMismatch),
     (origin.Some? && Field(lines, "URI:") == Some(origin.value.uri), UriMismatch),
     (expiration == None || expiration == Some("")
        || exists t :: x.time(expiration.value) == Some(t) && now <= t, MessageExpired)]
  }

  /** The verdict that names the first condition not met. */
  function FirstFailure(cs: seq<(bool, Reason)>): Verdict {
    if cs == [] then Verified else if !cs[0].0 then Refused(cs[0].1) else FirstFailure(cs[1..])
  }

  lemma {:induction false} NoFailure(cs: seq<(bool, Reason)>)
    ensures FirstFailure(cs) == Verified <==> forall i :: 0 <= i < |cs| ==> cs[i].0
  {
    if cs != [] {
      NoFailure(cs[1..]);
      assert cs == [cs[0]] + cs[1..];
    }
  }

  /**
   * Any message at all passes exactly if it meets every condition, and a refusal names the first one it
   * does not meet; a time that cannot be read counts as expired.
   */
  lemma RefusalNamesTheFirstFailure(
      x: Texts, address: string, message: string, nonce: string, origin: Option<Origin>, now: int)
    ensures
      var v, cs := CheckMessage(x, address, message, nonce, origin, now),
                   Conditions(x, address, message, nonce, origin, now);
      && v == FirstFailure(cs)
      && (v == Verified <==> forall i :: 0 <= i < |cs| ==> cs[i].0)
  {
    var cs := Conditions(x, address, message, nonce, origin, now);
    NoFailure(cs);
    assert cs[6].0 <==> NotExpired(x, Field(Split(message, '\n'), "Expiration Time:"), now);
    FailureAmongSeven(cs);
  }

  lemma FailureAmongSeven(cs: seq<(bool, Reason)>)
    requires |cs| == 7
    ensures FirstFailure(cs) ==
            if !cs[0].0 then Refused(cs[0].1) else if !cs[1].0 then Refused(cs[1].1)
            else if !cs[2].0 then Refused(cs[2].1) else if !cs[3].0 then Refused(cs[3].1)
            else if !cs[4].0 then Refused(cs[4].1) else if !cs[5].0 then Refused(cs[5].1)
            else if !cs[6].0 then Refused(cs[6].1) else Verified
  {
    assert FirstFailure(cs[5..]) == if !cs[5].0 then Refused(cs[5].1) else FirstFailure(cs[6..]);
    assert FirstFailure(cs[4..]) == if !cs[4].0 then Refused(cs[4].1) else FirstFailure(cs[5..]);
    assert FirstFailure(cs[3..]) == if !cs[3].0 then Refused(cs[3].1) else FirstFailure(cs[4..]);
    assert FirstFailure(cs[2..]) == if !cs[2].0 then Refused(cs[2].1) else FirstFailure(cs[3..]);
    assert FirstFailure(cs[1..]) == if !cs[1].0 then Refused(cs[1].1) else FirstFailure(cs[2..]);
    assert cs[6..] == [cs[6]] && cs[0..] == cs;
  }

  // ---------------------------------------------------------------------------------------------
  // Trimming.
  // ---------------------------------------------------------------------------------------------

  lemma TrimmedStays(s: string)
    requires Trimmed(s)
    ensures Trim(s) == s
  {
  }

  lemma {:induction false} TrimEndKeepsFirst(s: string)
    requires s != "" && !IsSpace(s[0])
    ensures TrimEnd(s) != "" && TrimEnd(s)[0] == s[0]
  {
    if IsSpace(s[|s| - 1]) {
      TrimEndKeepsFirst(s[..|s| - 1]);
    }
  }

  predicate AllSpace(s: string) {
    forall i :: 0 <= i < |s| ==> IsSpace(s[i])
  }

  lemma {:induction false} TrimStartTakesSpace(s: string) returns (front: string)
    ensures s == front + TrimStart(s) && AllSpace(front)
    ensures TrimStart(s) == "" || !IsSpace(TrimStart(s)[0])
  {
    if s != "" && IsSpace(s[0]) {
      var rest := TrimStartTakesSpace(s[1..]);
      front := [s[0]] + rest;
    } else {
      front := "";
    }
  }

  lemma {:induction false} TrimEndTakesSpace(s: string) returns (back: string)
    ensures s == TrimEnd(s) + back && AllSpace(back)
    ensures TrimEnd(s) == "" || !IsSpace(TrimEnd(s)[|TrimEnd(s)| - 1])
    ensures s != "" && !IsSpace(s[0]) ==> TrimEnd(s) != "" && TrimEnd(s)[0] == s[0]
  {
    if s != "" && IsSpace(s[|s| - 1]) {
      var rest := TrimEndTakesSpace(s[..|s| - 1]);
      back := rest + [s[|s| - 1]];
    } else {
      back := "";
    }
  }

  /** Trimming takes white space off both ends, all of it and nothing else. */
  lemma TrimTakesSpace(s: string) returns (front: string, back: string)
    ensures s == front + Trim(s) + back && AllSpace(front) && AllSpace(back) && Trimmed(Trim(s))
  {
    front := TrimStartTakesSpace(s);
    back := TrimEndTakesSpace(TrimStart(s));
  }

  lemma NoSpaceIsTrimmed(s: string)
    requires NoSpace(s)
    ensures Trimmed(s) && '\n' !in s && ' ' !in s
  {
  }

  lemma TrimAfterSpace(s: string)
    requires Trimmed(s)
    ensures Trim(" " + s) == s
  {
    assert (" " + s)[1..] == s;
    assert TrimStart(s) == s;
  }

  // ---------------------------------------------------------------------------------------------
  // Finding a field.
  // ---------------------------------------------------------------------------------------------

  /** A line that starts with something else. */
  predicate Other(line: string, prefix: string) {
    line == "" || (!IsSpace(line[0]) && prefix != "" && line[0] != prefix[0])
  }

  lemma SkipLine(line: string, rest: seq<string>, prefix: string)
    requires Other(line, prefix) && prefix != ""
    ensures Field([line] + rest, prefix) == Field(rest, prefix)
  {
    assert ([line] + rest)[1..] == rest;
    if line != "" {
      TrimEndKeepsFirst(line);
    }
  }

  lemma FoundFirst(name: string, value: string, rest: seq<string>)
    requires name != "" && !IsSpace(name[0]) && value != "" && Trimmed(value)
    ensures Field([name + " " + value] + rest, name) == Some(value)
  {
    var line := name + " " + value;
    TrimmedStays(line);
    assert line[|name|..] == " " + value;
    TrimAfterSpace(value);
  }

  /** Names that can be told apart by their first character, values without white space around them. */
  predicate Readable(fields: seq<FieldLine>) {
    && (forall i :: 0 <= i < |fields| ==>
          && fields[i].name != "" && !IsSpace(fields[i].name[0])
          && fields[i].value != "" && Trimmed(fields[i].value))
    && (forall i, j :: 0 <= i < j < |fields| ==> fields[i].name[0] != fields[j].name[0])
  }

  /** Each of the printed fields is read back. */
  lemma {:induction false} PrintedFieldIsRead(fields: seq<FieldLine>, j: nat)
    requires Readable(fields) && j < |fields|
    ensures Field(PrintFields(fields), fields[j].name) == Some(fields[j].value)
  {
    var f, rest := fields[0], PrintFields(fields[1..]);
    if j == 0 {
      FoundFirst(f.name, f.value, rest);
    } else {
      SkipLine(f.name + " " + f.value, rest, fields[j].name);
      PrintedFieldIsRead(fields[1..], j - 1);
    }
  }

  // ---------------------------------------------------------------------------------------------
  // Messages the server printed.
  // ---------------------------------------------------------------------------------------------

  predicate IsField(prefix: string) {
    prefix == "URI:" || prefix == "Version:" || prefix == "Chain ID:" ||
    prefix == "Nonce:" || prefix == "Issued At:" || prefix == "Expiration Time:"
  }

  /** A resolved origin: free of white space, and its first part does not look like a field. */
  ghost predicate CleanOrigin(origin: Origin) {
    && NoSpace(origin.messageOrigin) && NoSpace(origin.uri) && origin.uri != ""
    && forall prefix :: IsField(prefix) ==> !(prefix <= origin.messageOrigin)
  }

  predicate SingleLine(s: string) {
    Trimmed(s) && '\n' !in s
  }

  /** No field name goes on with " w". */
  lemma NameBreaks(prefix: string, n: nat)
    requires IsField(prefix) && n < |prefix|
    ensures prefix[n] != ' ' || (n + 1 < |prefix| && prefix[n + 1] != 'w')
  {
  }

  lemma OriginLineIsNoField(m: string, tail: string, prefix: string)
    requires NoSpace(m) && IsField(prefix) && !(prefix <= m)
    requires |tail| >= 2 && tail[0] == ' ' && tail[1] == 'w' && Trimmed(tail[1..])
    ensures !(prefix <= Trim(m + tail))
  {
    var line := m + tail;
    if m == "" {
      assert line == " " + tail[1..];
      TrimAfterSpace(tail[1..]);
    } else {
      TrimmedStays(line);
      assert line[|m|] == ' ' && line[|m| + 1] == 'w';
      if |m| < |prefix| {
        NameBreaks(prefix, |m|);
      } else {
        assert line[..|prefix|] == m[..|prefix|];
      }
    }
  }

  lemma {:induction false} BeforeMark(head: string, tail: string)
    requires ' ' !in head
    ensures Before(head + MARK + tail, MARK) == head
  {
    var text := head + MARK + tail;
    if head == "" {
      assert text == MARK + tail;
    } else {
      assert text[0] == head[0] && MARK[0] == ' ';
      assert text[1..] == head[1..] + MARK + tail;
      BeforeMark(head[1..], tail);
      assert [head[0]] + head[1..] == head;
    }
  }

  predicate Plain(lines: seq<string>) {
    forall i :: 0 <= i < |lines| ==> '\n' !in lines[i]
  }

  lemma PlainAppend(ls: seq<string>, ms: seq<string>)
    requires Plain(ls) && Plain(ms)
    ensures Plain(ls + ms)
  {
  }

  lemma {:induction false} PrintedLinesArePlain(fields: seq<FieldLine>)
    requires forall i :: 0 <= i < |fields| ==> '\n' !in fields[i].name && '\n' !in fields[i].value
    ensures Plain(PrintFields(fields))
  {
    if fields != [] {
      PrintedLinesArePlain(fields[1..]);
      PlainAppend([fields[0].name + " " + fields[0].value], PrintFields(fields[1..]));
    }
  }

  lemma NamesAreWords(prefix: string)
    requires IsField(prefix)
    ensures prefix != "" && !IsSpace(prefix[0]) && '\n' !in prefix && Other(STATEMENT, prefix)
  {
  }

  lemma NameOfField(x: Texts, nonce: string, origin: Origin, now: int, j: nat)
    requires j < 6
    ensures IsField(Fields(x, nonce, origin, now)[j].name)
    ensures Fields(x, nonce, origin, now)[j].name[0] == "UVCNIE"[j]
  {
  }

  lemma ValueOfField(x: Texts, nonce: string, origin: Origin, now: int, j: nat)
    requires Sound(x) && SingleLine(nonce) && CleanOrigin(origin) && j < 6
    ensures var value := Fields(x, nonce, origin, now)[j].value;
            SingleLine(value) && (nonce != "" ==> value != "")
  {
  }

  lemma FieldIsReadable(x: Texts, nonce: string, origin: Origin, now: int, j: nat)
    requires Sound(x) && SingleLine(nonce) && CleanOrigin(origin) && j < 6
    ensures var f := Fields(x, nonce, origin, now)[j];
            && f.name != "" && !IsSpace(f.name[0]) && f.name[0] == "UVCNIE"[j]
            && '\n' !in f.name && '\n' !in f.value && Trimmed(f.value) && (nonce != "" ==> f.value != "")
  {
    NameOfField(x, nonce, origin, now, j);
    NamesAreWords(Fields(x, nonce, origin, now)[j].name);
    ValueOfField(x, nonce, origin, now, j);
  }

  lemma FieldsPrintPlain(x: Texts, nonce: string, origin: Origin, now: int)
    requires Sound(x) && SingleLine(nonce) && CleanOrigin(origin)
    ensures Plain(PrintFields(Fields(x, nonce, origin, now)))
  {
    forall j | 0 <= j < 6
      ensures '\n' !in Fields(x, nonce, origin, now)[j].name && '\n' !in Fields(x, nonce, origin, now)[j].value
    {
      FieldIsReadable(x, nonce, origin, now, j);
    }
    PrintedLinesArePlain(Fields(x, nonce, origin, now));
  }

  lemma FieldsAreReadable(x: Texts, nonce: string, origin: Origin, now: int)
    requires Sound(x) && SingleLine(nonce) && nonce != "" && CleanOrigin(origin)
    ensures Readable(Fields(x, nonce, origin, now))
  {
    var fields := Fields(x, nonce, origin, now);
    forall j | 0 <= j < |fields|
      ensures fields[j].name != "" && !IsSpace(fields[j].name[0]) && fields[j].value != "" && Trimmed(fields[j].value)
    {
      FieldIsReadable(x, nonce, origin, now, j);
    }
    forall i, j | 0 <= i < j < |fields|
      ensures fields[i].name[0] != fields[j].name[0]
    {
      FieldIsReadable(x, nonce, origin, now, i);
      FieldIsReadable(x, nonce, origin, now, j);
      FirstLettersDiffer(i, j);
    }
  }

  lemma FirstLettersDiffer(i: nat, j: nat)
    requires i < j < 6
    ensures "UVCNIE"[i] != "UVCNIE"[j]
  {
  }

  lemma BelowIsPlain(x: Texts, nonce: string, origin: Origin, now: int)
    requires Sound(x) && SingleLine(nonce) && CleanOrigin(origin)
    ensures Plain(Below(x, nonce, origin, now))
  {
    FieldsPrintPlain(x, nonce, origin, now);
    PlainAppend(["", STATEMENT, ""], PrintFields(Fields(x, nonce, origin, now)));
  }

  lemma GreetingIsPlain(messageOrigin: string)
    requires NoSpace(messageOrigin)
    ensures '\n' !in messageOrigin + MARK + GREETING_END
  {
    NoSpaceIsTrimmed(messageOrigin);
  }

  /** A printed message splits into the lines it was made of, the address into its own if it has several. */
  lemma LinesSplit(x: Texts, address: string, nonce: string, origin: Origin, now: int)
    requires Sound(x) && SingleLine(nonce) && CleanOrigin(origin)
    ensures Split(BuildSiweMessage(x, address, nonce, origin, now), '\n') ==
            [origin.messageOrigin + MARK + GREETING_END] + Split(address, '\n') + Below(x, nonce, origin, now)
  {
    var first, below := origin.messageOrigin + MARK + GREETING_END, Below(x, nonce, origin, now);
    BelowIsPlain(x, nonce, origin, now);
    GreetingIsPlain(origin.messageOrigin);
    JoinCons(first, [address] + below, '\n');
    JoinCons(address, below, '\n');
    assert [first, address] + below == [first] + ([address] + below);
    SplitFirst(first, '\n', Join([address] + below, '\n'));
    SplitAtSeparator(address, '\n', Join(below, '\n'));
    JoinSplit(below, '\n');
  }

  lemma {:induction false} FieldAppend(a: seq<string>, b: seq<string>, prefix: string)
    ensures Field(a + b, prefix) == if Field(a, prefix).Some? then Field(a, prefix) else Field(b, prefix)
  {
    if a == [] {
      assert a + b == b;
    } else {
      assert (a + b)[1..] == a[1..] + b;
      FieldAppend(a[1..], b, prefix);
    }
  }

  lemma SkipStatement(statement: string, rest: seq<string>, prefix: string)
    requires prefix != "" && Other(statement, prefix)
    ensures Field(["", statement, ""] + rest, prefix) == Field(rest, prefix)
  {
    assert ["", statement, ""] + rest == [""] + ([statement] + ([""] + rest));
    SkipLine("", rest, prefix);
    SkipLine(statement, [""] + rest, prefix);
    SkipLine("", [statement] + ([""] + rest), prefix);
  }

  /** The field as the lines of the address give it, if one of them starts like it. */
  function OrFromAddress(address: string, name: string, value: string): string {
    var own := Field(Split(address, '\n'), name);
    if own.Some? then own.value else value
  }

  /** A field is read from its own line, unless a line of the address starts like the field. */
  lemma FieldOfMessage(x: Texts, address: string, nonce: string, origin: Origin, now: int, j: nat)
    requires Sound(x) && SingleLine(nonce) && nonce != "" && CleanOrigin(origin) && j < 6
    ensures var f := Fields(x, nonce, origin, now)[j];
            Field(Split(BuildSiweMessage(x, address, nonce, origin, now), '\n'), f.name) ==
            Some(OrFromAddress(address, f.name, f.value))
  {
    var fields, below := Fields(x, nonce, origin, now), Below(x, nonce, origin, now);
    var first, name := origin.messageOrigin + MARK + GREETING_END, fields[j].name;
    LinesSplit(x, address, nonce, origin, now);
    FieldsAreReadable(x, nonce, origin, now);
    NameOfField(x, nonce, origin, now, j);
    NamesAreWords(name);
    OriginLineIsNoField(origin.messageOrigin, MARK + GREETING_END, name);
    assert first == origin.messageOrigin + (MARK + GREETING_END);
    assert [first] + Split(address, '\n') + below == [first] + (Split(address, '\n') + below);
    assert ([first] + (Split(address, '\n') + below))[1..] == Split(address, '\n') + below;
    FieldAppend(Split(address, '\n'), below, name);
    SkipStatement(STATEMENT, PrintFields(fields), name);
    PrintedFieldIsRead(fields, j);
  }

  lemma HeadOfMessage(x: Texts, address: string, nonce: string, origin: Origin, now: int)
    requires Sound(x) && SingleLine(nonce) && CleanOrigin(origin)
    ensures var lines := Split(BuildSiweMessage(x, address, nonce, origin, now), '\n');
            |lines| >= 2 && lines[1] == Split(address, '\n')[0] && Before(lines[0], MARK) == origin.messageOrigin
  {
    LinesSplit(x, address, nonce, origin, now);
    NoSpaceIsTrimmed(origin.messageOrigin);
    BeforeMark(origin.messageOrigin, GREETING_END);
  }

  lemma ParsedMessage(x: Texts, address: string, nonce: string, origin: Origin, now: int)
    requires Sound(x) && SingleLine(nonce) && nonce != "" && CleanOrigin(origin)
    ensures Parse(Split(BuildSiweMessage(x, address, nonce, origin, now), '\n')) ==
            Parsed(Some(OrFromAddress(address, "Nonce:", nonce)),
                   Some(Trim(Split(address, '\n')[0])),
                   Some(OrFromAddress(address, "Chain ID:", CHAIN_ID)),
                   origin.messageOrigin,
                   Some(OrFromAddress(address, "URI:", origin.uri)),
                   Some(OrFromAddress(address, "Expiration Time:", x.iso(now + NONCE_TTL))))
  {
    FieldOfMessage(x, address, nonce, origin, now, 0);
    FieldOfMessage(x, address, nonce, origin, now, 2);
    FieldOfMessage(x, address, nonce, origin, now, 3);
    FieldOfMessage(x, address, nonce, origin, now, 5);
    HeadOfMessage(x, address, nonce, origin, now);
  }

  /**
   * When a printed message passes the checks of its own request, for any address at all: its first line
   * without outer white space must stand for it, and no line of it may be read as a field with another value.
   */
  lemma PrintedMessagesPass(x: Texts, address: string, nonce: string, origin: Origin, issued: int, now: int)
    requires Sound(x) && SingleLine(nonce) && nonce != "" && CleanOrigin(origin)
    ensures var message := BuildSiweMessage(x, address, nonce, origin, issued);
            CheckMessage(x, address, message, nonce, Some(origin), now) == Verified <==>
            && x.lower(Trim(Split(address, '\n')[0])) == x.lower(address)
            && OrFromAddress(address, "Nonce:", nonce) == nonce
            && OrFromAddress(address, "Chain ID:", CHAIN_ID) == CHAIN_ID
            && OrFromAddress(address, "URI:", origin.uri) == origin.uri
            && NotExpired(x, Some(OrFromAddress(address, "Expiration Time:", x.iso(issued + NONCE_TTL))), now)
  {
    ParsedMessage(x, address, nonce, origin, issued);
  }

  /** An address on one line, without outer white space, that looks like no field. */
  ghost predicate Ordinary(address: string) {
    SingleLine(address) && forall name :: IsField(name) ==> !(name <= address)
  }

  lemma OrdinaryIsNoField(address: string, name: string, value: string)
    requires Ordinary(address) && IsField(name)
    ensures OrFromAddress(address, name, value) == value && Trim(Split(address, '\n')[0]) == address
  {
    SplitNothing(address, '\n');
    TrimmedStays(address);
    assert Field([address], name) == Field([address][1..], name);
  }

  /**
   * A message printed for an ordinary address is verified for exactly one request: the same address up
   * to case, the nonce it was printed with, the origin it was printed for, and only until it expires.
   */
  lemma PrintedMessagesFitOneRequest(
      x: Texts, address: string, nonce: string, origin: Origin, issued: int,
      otherAddress: string, otherNonce: string, otherOrigin: Option<Origin>, now: int)
    requires Sound(x) && Ordinary(address) && SingleLine(nonce) && nonce != "" && CleanOrigin(origin)
    ensures var message := BuildSiweMessage(x, address, nonce, origin, issued);
            CheckMessage(x, otherAddress, message, otherNonce, otherOrigin, now) == Verified <==>
            x.lower(otherAddress) == x.lower(address) && otherNonce == nonce && otherOrigin == Some(origin)
            && now <= issued + NONCE_TTL
  {
    ParsedMessage(x, address, nonce, origin, issued);
    OrdinaryIsNoField(address, "Nonce:", nonce);
    OrdinaryIsNoField(address, "Chain ID:", CHAIN_ID);
    OrdinaryIsNoField(address, "URI:", origin.uri);
    OrdinaryIsNoField(address, "Expiration Time:", x.iso(issued + NONCE_TTL));
    assert x.time(x.iso(issued + NONCE_TTL)) == Some(issued + NONCE_TTL);
  }
}

/**
  The SMTP test server's session logic (`SMTPTestServer`): address
  extraction from a command line, the command dispatch of `_handle_client`
  with its session state (sender, recipient list) and the server's
  processed-mail counter, the per-recipient counting of `_process_email`, and
  the "try each mail exchanger in order until one accepts" loop of
  `_relay_email`.

  The socket is replaced by the sequence of chunks that successive `recv`
  calls return; when it runs out, `recv` is taken to return the empty string,
  as it does once the peer has closed the connection. The network is
  replaced by a `Network` oracle: which mail exchangers a domain has and
  which of them accept a given message.
 */
module Smtp {
  import opened Wrappers
  import opened Text
  import opened Records
  import opened Tally

  // ---------------------------------------------------------------------
  // `_extract_email`: `re.search(r'<(.+?)>', line)`, else the last
  // whitespace-separated token stripped of `<` and `>`.

  /** `<(.+?)>` can match from the `<` at `i` to the `>` at `j`: at least one
      character in between, and none of them a newline (`.` does not match
      `\n`). */
  predicate AngleMatch(s: string, i: int, j: int) {
    && 0 <= i && i + 2 <= j < |s|
    && s[i] == '<' && s[j] == '>'
    && forall k :: i < k < j ==> s[k] != '\n'
  }

  /** The lazy `+?` stops at the first `>` after the mandatory character. */
  predicate LazyMatch(s: string, i: int, j: int) {
    AngleMatch(s, i, j) && forall m :: i + 2 <= m < j ==> s[m] != '>'
  }

  /** `re.search` reports the match with the leftmost start. */
  ghost predicate NoMatchBefore(s: string, i: int) {
    forall i', j' :: 0 <= i' < i ==> !AngleMatch(s, i', j')
  }

  function CloseFrom(s: string, i: nat, m: nat): (r: Option<nat>)
    requires i < |s| && s[i] == '<' && i + 2 <= m <= |s|
    requires forall k :: i < k < m ==> s[k] != '\n'
    requires forall k :: i + 2 <= k < m ==> s[k] != '>'
    ensures r.Some? ==> LazyMatch(s, i, r.value)
    ensures r.None? ==> forall j :: !AngleMatch(s, i, j)
    decreases |s| - m
  {
    if m == |s| then None
    else if s[m] == '>' then Some(m)
    else if s[m] == '\n' then None
    else CloseFrom(s, i, m + 1)
  }

  function MatchAt(s: string, i: nat): (r: Option<nat>)
    requires i < |s|
    ensures r.Some? ==> LazyMatch(s, i, r.value)
    ensures r.None? ==> forall j :: !AngleMatch(s, i, j)
  {
    if s[i] == '<' && i + 1 < |s| && s[i + 1] != '\n' then CloseFrom(s, i, i + 2) else None
  }

  /** The scan of `re.search`, start positions from `i` onwards. */
  function Search(s: string, i: nat): (r: Option<(nat, nat)>)
    requires i <= |s| && NoMatchBefore(s, i)
    ensures r.Some? ==> LazyMatch(s, r.value.0, r.value.1) && NoMatchBefore(s, r.value.0)
    ensures r.None? ==> forall i', j' :: !AngleMatch(s, i', j')
    decreases |s| - i
  {
    if i == |s| then None
    else
      match MatchAt(s, i)
      case Some(j) => Some((i, j))
      case None => Search(s, i + 1)
  }

  /** The fallback of `_extract_email`: `parts[-1].strip('<>')` when the
      line has at least two whitespace-separated parts, else `""`. */
  function BareAddress(line: string): string {
    var parts := Split(line);
    if |parts| > 1 then StripWhere(parts[|parts| - 1], IsAngle) else ""
  }

  /** The leftmost lazy match is the one `Search` reports. */
  lemma SearchFindsLeftmost(s: string, i: int, j: int)
    requires LazyMatch(s, i, j) && NoMatchBefore(s, i)
    ensures Search(s, 0) == Some((i, j))
  {
    assert NoMatchBefore(s, 0);
    var r := Search(s, 0);
    assert r.Some?;
  }

  /** `_extract_email(smtp_line)`: the text between the `<` and `>` of the
      leftmost, shortest `<...>` with something in between; without one,
      the last of at least two whitespace-separated parts with `<`/`>`
      stripped from both ends; otherwise the empty string. */
  function ExtractEmail(line: string): (r: string)
    ensures forall i, j :: LazyMatch(line, i, j) && NoMatchBefore(line, i) ==> r == line[i + 1..j]
    ensures (forall i, j :: !AngleMatch(line, i, j)) ==> r == BareAddress(line)
  {
    assert NoMatchBefore(line, 0);
    match Search(line, 0)
    case Some((i, j)) =>
      assert forall a, b :: LazyMatch(line, a, b) && NoMatchBefore(line, a) ==> a == i && b == j by {
        forall a, b | LazyMatch(line, a, b) && NoMatchBefore(line, a) ensures a == i && b == j {
          SearchFindsLeftmost(line, a, b);
        }
      }
      line[i + 1..j]
    case None => BareAddress(line)
  }

  /** Round trip of the bracketed form: whatever precedes the `<` (here
      without a `<` of its own) and whatever follows the `>`, the address
      between them comes back, provided it is non-empty and holds no `>` and
      no newline. */
  lemma ExtractBracketed(prefix: string, address: string, suffix: string)
    requires forall k :: 0 <= k < |prefix| ==> prefix[k] != '<'
    requires address != []
    requires forall k :: 0 <= k < |address| ==> address[k] != '>' && address[k] != '\n'
    ensures ExtractEmail(prefix + "<" + address + ">" + suffix) == address
  {
    var s := prefix + "<" + address + ">" + suffix;
    var i, j := |prefix|, |prefix| + 1 + |address|;
    assert forall k :: 0 <= k < |prefix| ==> s[k] == prefix[k];
    assert forall k :: 0 <= k < |address| ==> s[i + 1 + k] == address[k];
    assert s[i] == '<' && s[j] == '>';
    assert LazyMatch(s, i, j) by {
      forall k | i < k < j ensures s[k] != '\n' && s[k] != '>' {
        assert s[k] == address[k - i - 1];
      }
    }
    assert NoMatchBefore(s, i) by {
      forall i', j' | 0 <= i' < i ensures !AngleMatch(s, i', j') {
        assert s[i'] == prefix[i'];
      }
    }
    assert s[i + 1..j] == address;
  }

  /** Round trip of the bare form: after a head without `<` that holds a
      word and ends in whitespace, a last word without whitespace or angle
      brackets comes back. */
  lemma ExtractBare(head: string, address: string)
    requires head != [] && IsSpace(head[|head| - 1]) && Split(head) != []
    requires forall k :: 0 <= k < |head| ==> head[k] != '<'
    requires IsToken(address)
    requires forall k :: 0 <= k < |address| ==> !IsAngle(address[k])
    ensures ExtractEmail(head + address) == address
  {
    var s := head + address;
    forall k | 0 <= k < |s| ensures s[k] != '<' {
      if k < |head| {
        assert s[k] == head[k];
      } else {
        assert s[k] == address[k - |head|];
      }
    }
    NoOpenNoMatch(s);
    BareLastWord(head, address);
  }

  lemma NoOpenNoMatch(s: string)
    requires forall k :: 0 <= k < |s| ==> s[k] != '<'
    ensures forall i, j :: !AngleMatch(s, i, j)
  {
  }

  /** The fallback alone: after a head that holds a word and ends in
      whitespace, it returns a last word without whitespace or angle
      brackets. */
  lemma BareLastWord(head: string, address: string)
    requires head != [] && IsSpace(head[|head| - 1]) && Split(head) != []
    requires IsToken(address)
    requires forall k :: 0 <= k < |address| ==> !IsAngle(address[k])
    ensures BareAddress(head + address) == address
  {
    var hs := Split(head);
    SplitAppend(head, address);
    SplitOfToken(address);
    var parts := Split(head + address);
    assert parts == hs + [address];
    assert |parts| == |hs| + 1 && parts[|hs|] == address;
    StripNothing(address, IsAngle);
  }

  /** `MAIL FROM:`, then any run of spaces, then `<address>`: the sender is
      the address. */
  lemma ExtractFromMailFrom(spaces: string, address: string)
    requires forall k :: 0 <= k < |spaces| ==> spaces[k] == ' '
    requires address != []
    requires forall k :: 0 <= k < |address| ==> address[k] != '>' && address[k] != '\n'
    ensures ExtractEmail("MAIL FROM:" + spaces + "<" + address + ">") == address
  {
    var prefix := "MAIL FROM:" + spaces;
    MailFromHasNoOpen();
    forall k | 0 <= k < |prefix| ensures prefix[k] != '<' {
      if k >= 10 {
        assert prefix[k] == spaces[k - 10];
      }
    }
    ExtractBracketed(prefix, address, "");
    var t := prefix + "<" + address + ">";
    assert t + "" == t;
  }

  lemma MailFromHasNoOpen()
    ensures var p := "MAIL FROM:"; |p| == 10 && forall k :: 0 <= k < |p| ==> p[k] != '<'
  {
  }

  lemma ExtractFromBareRcptTo(address: string)
    requires IsToken(address)
    requires forall k :: 0 <= k < |address| ==> !IsAngle(address[k])
    ensures ExtractEmail("RCPT TO: " + address) == address
  {
    RcptToHead();
    RcptToHeadHasNoOpen();
    ExtractBare("RCPT TO: ", address);
  }

  /** `RCPT TO: ` qualifies as the head of a bare address. */
  lemma RcptToHead()
    ensures var head := "RCPT TO: ";
            head != [] && IsSpace(head[|head| - 1]) && Split(head) != []
  {
    var word, rest := "RCPT", " TO: ";
    assert "RCPT TO: " == word + rest;
    assert IsToken(word) && IsSpace(rest[0]);
    SplitTakesToken(word, rest);
  }

  lemma RcptToHeadHasNoOpen()
    ensures var head := "RCPT TO: "; forall k :: 0 <= k < |head| ==> head[k] != '<'
  {
  }

  // ---------------------------------------------------------------------
  // Relaying: `_relay_email` and `_process_email`

  /** The network as the server sees it: the mail exchangers
      `_get_mx_servers` finds for a domain, in the order they are tried, and
      whether an exchanger accepts a message from a sender to a recipient. */
  datatype Network = Network(
    mxFor: string -> seq<string>,
    accepts: (string, string, string) -> bool)

  /** `rcpt.split('@')[1]`, or nothing when the address has no `@` (the
      `IndexError` that `_relay_email` turns into a failed relay). */
  function Domain(rcpt: string): (d: Option<string>)
    ensures d.Some? <==> '@' in rcpt
    ensures d.Some? ==> '@' !in d.value
    ensures d.Some? ==>
              var a := IndexOf(rcpt, '@');
              && a + 1 + |d.value| <= |rcpt|
              && rcpt[a + 1..a + 1 + |d.value|] == d.value
              && (a + 1 + |d.value| == |rcpt| || rcpt[a + 1 + |d.value|] == '@')
  {
    var at := IndexOf(rcpt, '@');
    if at == |rcpt| then None
    else
      var after := rcpt[at + 1..];
      Some(after[..IndexOf(after, '@')])
  }

  /** The exchangers `_relay_email` tries for `rcpt`, in order. */
  function Exchangers(rcpt: string, net: Network): seq<string> {
    match Domain(rcpt)
    case None => []
    case Some(d) => net.mxFor(d)
  }

  /** Some exchanger of the recipient's domain accepts the message. */
  predicate Relayed(mailFrom: string, rcpt: string, net: Network) {
    var mx := Exchangers(rcpt, net);
    exists k :: 0 <= k < |mx| && net.accepts(mx[k], mailFrom, rcpt)
  }

  /** `_relay_email` logs and then returns True; its record in the test log. */
  function RelayRecord(now: string, mailFrom: string, rcptTo: seq<string>, success: bool): TestResult {
    TestResult(now, "smtp_relay", "server_relay", Join(rcptTo, ", "), mailFrom, success)
  }

  /** How many of the recipients `_process_email` delivers to. */
  function DeliveredCount(mailFrom: string, rcptTo: seq<string>, net: Network): nat {
    CountWhere(rcptTo, rcpt => Relayed(mailFrom, rcpt, net))
  }

  // ---------------------------------------------------------------------
  // The session

  /** The kind of a command line, decided on the upper-cased line: `DATA`
      and `QUIT` by equality, the others by prefix, in this order. */
  datatype Command = Hello | MailFrom | RcptTo | Data | Quit | Reset | Unrecognized

  function Classify(data: string): Command {
    var cmd := Upper(data);
    if StartsWith(cmd, "EHLO") || StartsWith(cmd, "HELO") then Hello
    else if StartsWith(cmd, "MAIL FROM:") then MailFrom
    else if StartsWith(cmd, "RCPT TO:") then RcptTo
    else if cmd == "DATA" then Data
    else if cmd == "QUIT" then Quit
    else if StartsWith(cmd, "RSET") then Reset
    else Unrecognized
  }

  /** The order of the tests in the dispatch does not matter: each kind of
      command is recognised by its own test alone, so no line passes two of
      them. A prefix test sees only the line's start, so `DATA` and `QUIT`
      followed by anything are unrecognised while `RSET` followed by anything
      is a reset. */
  lemma ClassifyByOwnTest(data: string)
    ensures var cmd := Upper(data);
            && (Classify(data) == Hello <==> StartsWith(cmd, "EHLO") || StartsWith(cmd, "HELO"))
            && (Classify(data) == MailFrom <==> StartsWith(cmd, "MAIL FROM:"))
            && (Classify(data) == RcptTo <==> StartsWith(cmd, "RCPT TO:"))
            && (Classify(data) == Data <==> cmd == "DATA")
            && (Classify(data) == Quit <==> cmd == "QUIT")
            && (Classify(data) == Reset <==> StartsWith(cmd, "RSET"))
  {
    var cmd := Upper(data);
    if cmd != [] {
      FirstLetters(cmd);
    }
  }

  /** The first letters of the command words tell them apart (`RCPT` and
      `RSET` by their second letter). */
  lemma FirstLetters(cmd: string)
    requires cmd != []
    ensures StartsWith(cmd, "EHLO") ==> cmd[0] == 'E'
    ensures StartsWith(cmd, "HELO") ==> cmd[0] == 'H'
    ensures StartsWith(cmd, "MAIL FROM:") ==> cmd[0] == 'M'
    ensures StartsWith(cmd, "RCPT TO:") ==> cmd[0] == 'R' && |cmd| > 1 && cmd[1] == 'C'
    ensures cmd == "DATA" ==> cmd[0] == 'D'
    ensures cmd == "QUIT" ==> cmd[0] == 'Q'
    ensures StartsWith(cmd, "RSET") ==> cmd[0] == 'R' && |cmd| > 1 && cmd[1] == 'S'
  {
    if StartsWith(cmd, "EHLO") { assert cmd[0] == cmd[..4][0]; }
    if StartsWith(cmd, "HELO") { assert cmd[0] == cmd[..4][0]; }
    if StartsWith(cmd, "MAIL FROM:") { assert cmd[0] == cmd[..10][0]; }
    if StartsWith(cmd, "RCPT TO:") { assert cmd[0] == cmd[..8][0] && cmd[1] == cmd[..8][1]; }
    if StartsWith(cmd, "RSET") { assert cmd[0] == cmd[..4][0] && cmd[1] == cmd[..4][1]; }
  }

  /** A command is recognised whatever its case. */
  lemma ClassifyIgnoresCase(data: string)
    ensures Classify(Upper(data)) == Classify(data)
  {
    UpperIdempotent(data);
  }

  /** The replies the server sends, with their codes. */
  datatype Reply = Greeting | HelloReply | Accepted | StartInput | Queued | DeliveryFailed | Closing | NotRecognized

  function Code(r: Reply): nat {
    match r
    case Greeting => 220
    case HelloReply => 250
    case Accepted => 250
    case StartInput => 354
    case Queued => 250
    case DeliveryFailed => 550
    case Closing => 221
    case NotRecognized => 500
  }

  /** The reply that ends a `DATA` exchange, one per processed message. */
  predicate IsCompletion(r: Reply) {
    r == Queued || r == DeliveryFailed
  }

  predicate IsQueued(r: Reply) {
    r == Queued
  }

  const Terminator: string := "\r\n.\r\n"

  /** What a session has done so far: its sender and recipients, the
      server's processed-mail counter, the replies sent and the results
      logged. */
  datatype State = State(
    mailFrom: string,
    rcptTo: seq<string>,
    processed: nat,
    replies: seq<Reply>,
    logged: seq<TestResult>)

  function Initial(processed: nat): State {
    State("", [], processed, [Greeting], [])
  }

  /** How a session ends: the client closed the connection (or sent a blank
      line), the client sent `QUIT`, or the connection closed in the middle
      of a message body. */
  datatype Ending = Disconnected | ClientQuit | Stalled

  datatype Outcome = Outcome(final: State, ending: Ending)

  datatype Next = Continue(st: State, at: nat) | Stop(st: State, ending: Ending)

  /** The chunk that completes a message body: the first from `j` on that
      ends with `\r\n.\r\n`, or `|chunks|` when none does. */
  function DataEnd(chunks: seq<string>, j: nat): (r: nat)
    requires j <= |chunks|
    ensures j <= r <= |chunks|
    ensures r < |chunks| ==> EndsWith(chunks[r], Terminator)
    ensures forall k :: j <= k < r ==> !EndsWith(chunks[k], Terminator)
    decreases |chunks| - j
  {
    if j == |chunks| || EndsWith(chunks[j], Terminator) then j else DataEnd(chunks, j + 1)
  }

  /** One turn of the `while` loop of `_handle_client`, on `chunks[i]`. */
  function Step(chunks: seq<string>, i: nat, st: State, net: Network, now: string): (n: Next)
    requires i < |chunks|
    ensures n.Continue? ==> i < n.at <= |chunks|
  {
    var data := Strip(chunks[i]);
    if data == [] then Stop(st, Disconnected)
    else
      match Classify(data)
      case Hello => Continue(st.(replies := st.replies + [HelloReply]), i + 1)
      case MailFrom =>
        Continue(st.(mailFrom := ExtractEmail(data), replies := st.replies + [Accepted]), i + 1)
      case RcptTo =>
        Continue(st.(rcptTo := st.rcptTo + [ExtractEmail(data)], replies := st.replies + [Accepted]), i + 1)
      case Data =>
        var end := DataEnd(chunks, i + 1);
        if end == |chunks| then Stop(st.(replies := st.replies + [StartInput]), Stalled)
        else
          var success := DeliveredCount(st.mailFrom, st.rcptTo, net) > 0;
          Continue(State("", [], st.processed + 1,
                         st.replies + [StartInput, if success then Queued else DeliveryFailed],
                         st.logged + [RelayRecord(now, st.mailFrom, st.rcptTo, success)]),
                   end + 1)
      case Quit => Stop(st.(replies := st.replies + [Closing]), ClientQuit)
      case Reset => Continue(st.(mailFrom := "", rcptTo := [], replies := st.replies + [Accepted]), i + 1)
      case Unrecognized => Continue(st.(replies := st.replies + [NotRecognized]), i + 1)
  }

  /** The turn of a `DATA` whose body is complete. */
  lemma StepCompletesData(chunks: seq<string>, i: nat, st: State, net: Network, now: string)
    requires i < |chunks| && Strip(chunks[i]) != [] && Classify(Strip(chunks[i])) == Data
    requires DataEnd(chunks, i + 1) < |chunks|
    ensures var success := DeliveredCount(st.mailFrom, st.rcptTo, net) > 0;
            Step(chunks, i, st, net, now)
            == Continue(State("", [], st.processed + 1,
                              st.replies + [StartInput, if success then Queued else DeliveryFailed],
                              st.logged + [RelayRecord(now, st.mailFrom, st.rcptTo, success)]),
                        DataEnd(chunks, i + 1) + 1)
  {
  }

  /** The rest of a session from chunk `i` on. */
  function Serve(chunks: seq<string>, i: nat, st: State, net: Network, now: string): Outcome
    requires i <= |chunks|
    decreases |chunks| - i
  {
    if i == |chunks| then Outcome(st, Disconnected)
    else
      match Step(chunks, i, st, net, now)
      case Continue(st', j) => Serve(chunks, j, st', net, now)
      case Stop(st', e) => Outcome(st', e)
  }

  /** What the other commands do to the session state. `MAIL FROM:` sets
      the sender, `RCPT TO:` appends one recipient, `RSET` clears both;
      none of them moves the processed counter. `EHLO`/`HELO` and
      unrecognised commands change nothing but the replies; `QUIT`, a blank
      line and a `DATA` whose body never completes end the session. */
  lemma StepEffects(chunks: seq<string>, i: nat, st: State, net: Network, now: string)
    requires i < |chunks|
    ensures var data := Strip(chunks[i]);
            var n := Step(chunks, i, st, net, now);
            && (data == [] ==> n == Stop(st, Disconnected))
            && (data != [] && Classify(data) in {Hello, Unrecognized} ==>
                  n.Continue? && n.at == i + 1
                  && n.st.mailFrom == st.mailFrom && n.st.rcptTo == st.rcptTo
                  && n.st.processed == st.processed && n.st.logged == st.logged
                  && n.st.replies == st.replies + [if Classify(data) == Hello then HelloReply else NotRecognized])
            && (data != [] && Classify(data) == MailFrom ==>
                  n.Continue? && n.at == i + 1
                  && n.st.mailFrom == ExtractEmail(data) && n.st.rcptTo == st.rcptTo
                  && n.st.processed == st.processed && n.st.logged == st.logged
                  && n.st.replies == st.replies + [Accepted])
            && (data != [] && Classify(data) == RcptTo ==>
                  n.Continue? && n.at == i + 1
                  && n.st.rcptTo == st.rcptTo + [ExtractEmail(data)] && n.st.mailFrom == st.mailFrom
                  && n.st.processed == st.processed && n.st.logged == st.logged
                  && n.st.replies == st.replies + [Accepted])
            && (data != [] && Classify(data) == Reset ==>
                  n.Continue? && n.at == i + 1
                  && n.st.mailFrom == "" && n.st.rcptTo == []
                  && n.st.processed == st.processed && n.st.logged == st.logged
                  && n.st.replies == st.replies + [Accepted])
            && (data != [] && Classify(data) == Quit ==>
                  n == Stop(st.(replies := st.replies + [Closing]), ClientQuit))
            && (data != [] && Classify(data) == Data && DataEnd(chunks, i + 1) == |chunks| ==>
                  n == Stop(st.(replies := st.replies + [StartInput]), Stalled))
  {
  }

  /** A `DATA` whose body arrives completely: processing resumes after the
      chunk that ends the body, the sender and the recipients are cleared,
      the processed counter goes up by one, 354 is followed by 250 when the
      message reached at least one recipient and by 550 otherwise, and one
      `smtp_relay` result is logged for the sender and all the recipients,
      successful exactly when the message reached one of them. */
  lemma StepDelivers(chunks: seq<string>, i: nat, st: State, net: Network, now: string)
    requires i < |chunks| && Strip(chunks[i]) != [] && Classify(Strip(chunks[i])) == Data
    requires DataEnd(chunks, i + 1) < |chunks|
    ensures var n := Step(chunks, i, st, net, now);
            && n.Continue? && n.at == DataEnd(chunks, i + 1) + 1
            && n.st.mailFrom == "" && n.st.rcptTo == [] && n.st.processed == st.processed + 1
            && |n.st.replies| == |st.replies| + 2 && n.st.replies[..|st.replies|] == st.replies
            && n.st.replies[|st.replies|] == StartInput
            && |n.st.logged| == |st.logged| + 1 && n.st.logged[..|st.logged|] == st.logged
            && var e := n.st.logged[|st.logged|];
               && e.testType == "smtp_relay" && e.fromEmail == st.mailFrom
               && e.target == Join(st.rcptTo, ", ")
               && (e.success <==> exists k :: 0 <= k < |st.rcptTo| && Relayed(st.mailFrom, st.rcptTo[k], net))
               && (n.st.replies[|st.replies| + 1] == Queued <==> e.success)
               && (n.st.replies[|st.replies| + 1] == DeliveryFailed <==> !e.success)
  {
    StepCompletesData(chunks, i, st, net, now);
    CountWherePositive(st.rcptTo, rcpt => Relayed(st.mailFrom, rcpt, net));
    var n := Step(chunks, i, st, net, now);
    var success := DeliveredCount(st.mailFrom, st.rcptTo, net) > 0;
    var r := if success then Queued else DeliveryFailed;
    assert n.st.replies == st.replies + [StartInput, r];
    assert n.st.replies[..|st.replies|] == st.replies;
    assert n.st.logged[..|st.logged|] == st.logged;
  }

  /** `b` extends `a` and the books balance between them: the earlier
      replies and log entries are kept, the processed counter and the log
      grow by exactly the number of new completion replies (250 queued or
      550 failed), and the new successful log entries number exactly the new
      `Queued` replies. */
  predicate Accounts(a: State, b: State) {
    && |a.replies| <= |b.replies| && b.replies[..|a.replies|] == a.replies
    && |a.logged| <= |b.logged| && b.logged[..|a.logged|] == a.logged
    && b.processed - a.processed
       == CountWhere(b.replies, IsCompletion) - CountWhere(a.replies, IsCompletion)
       == |b.logged| - |a.logged|
    && CountWhere(b.logged, Succeeded) - CountWhere(a.logged, Succeeded)
       == CountWhere(b.replies, IsQueued) - CountWhere(a.replies, IsQueued)
  }

  lemma AccountsTransitive(a: State, b: State, c: State)
    requires Accounts(a, b) && Accounts(b, c)
    ensures Accounts(a, c)
  {
    assert c.replies[..|a.replies|] == c.replies[..|b.replies|][..|a.replies|];
    assert c.logged[..|a.logged|] == c.logged[..|b.logged|][..|a.logged|];
  }

  lemma AccountsSame(a: State, b: State)
    requires b.replies == a.replies && b.logged == a.logged && b.processed == a.processed
    ensures Accounts(a, b)
  {
    assert a.replies[..|a.replies|] == a.replies;
    assert a.logged[..|a.logged|] == a.logged;
  }

  lemma AccountsReply(a: State, b: State, r: Reply)
    requires b.replies == a.replies + [r] && !IsCompletion(r)
    requires b.logged == a.logged && b.processed == a.processed
    ensures Accounts(a, b)
  {
    assert a.logged[..|a.logged|] == a.logged;
    CountWhereSnoc(a.replies, r, IsCompletion);
    CountWhereSnoc(a.replies, r, IsQueued);
  }

  lemma AccountsCompletion(a: State, b: State, r: Reply, e: TestResult)
    requires b.replies == a.replies + [StartInput, r] && IsCompletion(r)
    requires b.logged == a.logged + [e] && b.processed == a.processed + 1
    requires IsQueued(r) <==> Succeeded(e)
    ensures Accounts(a, b)
  {
    var mid := a.replies + [StartInput];
    assert b.replies == mid + [r];
    assert b.replies[..|a.replies|] == a.replies;
    assert b.logged[..|a.logged|] == a.logged;
    CountWhereSnoc(a.replies, StartInput, IsCompletion);
    CountWhereSnoc(a.replies, StartInput, IsQueued);
    CountWhereSnoc(mid, r, IsCompletion);
    CountWhereSnoc(mid, r, IsQueued);
    CountWhereSnoc(a.logged, e, Succeeded);
  }

  /** One turn keeps the books balanced. */
  lemma StepAccounts(chunks: seq<string>, i: nat, st: State, net: Network, now: string)
    requires i < |chunks|
    ensures Accounts(st, Step(chunks, i, st, net, now).st)
  {
    var n := Step(chunks, i, st, net, now);
    var data := Strip(chunks[i]);
    if data == [] {
      AccountsSame(st, n.st);
    } else {
      match Classify(data)
      case Hello => AccountsReply(st, n.st, HelloReply);
      case MailFrom => AccountsReply(st, n.st, Accepted);
      case RcptTo => AccountsReply(st, n.st, Accepted);
      case Reset => AccountsReply(st, n.st, Accepted);
      case Quit => AccountsReply(st, n.st, Closing);
      case Unrecognized => AccountsReply(st, n.st, NotRecognized);
      case Data =>
        if DataEnd(chunks, i + 1) == |chunks| {
          AccountsReply(st, n.st, StartInput);
        } else {
          var success := DeliveredCount(st.mailFrom, st.rcptTo, net) > 0;
          AccountsCompletion(st, n.st, if success then Queued else DeliveryFailed,
                             RelayRecord(now, st.mailFrom, st.rcptTo, success));
        }
    }
  }

  /** Accounting over a whole session: the books balance between any state
      and the state the rest of the session ends in. */
  lemma {:induction false} ServeAccounting(chunks: seq<string>, i: nat, st: State, net: Network, now: string)
    requires i <= |chunks|
    ensures Accounts(st, Serve(chunks, i, st, net, now).final)
    decreases |chunks| - i
  {
    if i < |chunks| {
      var n := Step(chunks, i, st, net, now);
      StepAccounts(chunks, i, st, net, now);
      if n.Continue? {
        ServeAccounting(chunks, n.at, n.st, net, now);
        AccountsTransitive(st, n.st, Serve(chunks, n.at, n.st, net, now).final);
      }
    } else {
      assert st.replies[..|st.replies|] == st.replies;
      assert st.logged[..|st.logged|] == st.logged;
    }
  }

  /** How each ending shows in the replies: a session ended by `QUIT` has
      221 as its last reply, one whose message body was cut short has the
      354 as its last reply. */
  predicate EndingShown(final: State, ending: Ending) {
    && (ending == ClientQuit ==> final.replies != [] && final.replies[|final.replies| - 1] == Closing)
    && (ending == Stalled ==> final.replies != [] && final.replies[|final.replies| - 1] == StartInput)
  }

  lemma StepEndings(chunks: seq<string>, i: nat, st: State, net: Network, now: string)
    requires i < |chunks|
    ensures var n := Step(chunks, i, st, net, now);
            && (n.Stop? && n.ending == ClientQuit ==> n.st.replies == st.replies + [Closing])
            && (n.Stop? && n.ending == Stalled ==> n.st.replies == st.replies + [StartInput])
            && (n.Stop? ==> EndingShown(n.st, n.ending))
  {
    var data := Strip(chunks[i]);
    if data != [] && Classify(data) == Data && DataEnd(chunks, i + 1) < |chunks| {
      StepCompletesData(chunks, i, st, net, now);
    }
  }

  lemma {:induction false} ServeEndings(chunks: seq<string>, i: nat, st: State, net: Network, now: string)
    requires i <= |chunks|
    ensures EndingShown(Serve(chunks, i, st, net, now).final, Serve(chunks, i, st, net, now).ending)
    decreases |chunks| - i
  {
    if i < |chunks| {
      var n := Step(chunks, i, st, net, now);
      StepEndings(chunks, i, st, net, now);
      if n.Continue? {
        ServeEndings(chunks, n.at, n.st, net, now);
      }
    }
  }

  // ---------------------------------------------------------------------
  // The server object

  class SmtpTestServer {
    const host: string
    const port: nat
    var emailsProcessed: nat

    constructor (host: string, port: nat)
      ensures this.host == host && this.port == port && emailsProcessed == 0
    {
      this.host := host;
      this.port := port;
      emailsProcessed := 0;
    }

    /** `_relay_email(mail_from, rcpt_to, email_data)`: the exchangers of the
        recipient's domain are tried in order until one accepts. It
        delivers exactly when some exchanger accepts and reports how many
        it tried: those that refused, then the one that accepted. */
    method RelayEmail(mailFrom: string, rcpt: string, net: Network) returns (delivered: bool, attempts: nat)
      ensures delivered <==> Relayed(mailFrom, rcpt, net)
      ensures attempts <= |Exchangers(rcpt, net)|
      ensures !delivered ==> attempts == |Exchangers(rcpt, net)|
      ensures delivered ==> attempts >= 1 && net.accepts(Exchangers(rcpt, net)[attempts - 1], mailFrom, rcpt)
      ensures forall k :: 0 <= k < attempts - (if delivered then 1 else 0) ==>
                !net.accepts(Exchangers(rcpt, net)[k], mailFrom, rcpt)
    {
      var mx := Exchangers(rcpt, net);
      delivered, attempts := false, 0;
      while attempts < |mx|
        invariant attempts <= |mx|
        invariant forall k :: 0 <= k < attempts ==> !net.accepts(mx[k], mailFrom, rcpt)
      {
        var server := mx[attempts];
        attempts := attempts + 1;
        if net.accepts(server, mailFrom, rcpt) {
          delivered := true;
          return;
        }
      }
    }

    /** `_process_email(mail_from, rcpt_to, email_data, client_id)`: relays
        to each recipient and counts the deliveries; it succeeds exactly when
        at least one recipient was delivered to, so never for an empty
        recipient list. Returns the result it logs and the count. */
    method ProcessEmail(mailFrom: string, rcptTo: seq<string>, net: Network, now: string)
      returns (result: TestResult, successCount: nat)
      ensures successCount == DeliveredCount(mailFrom, rcptTo, net) <= |rcptTo|
      ensures result.success <==> exists k :: 0 <= k < |rcptTo| && Relayed(mailFrom, rcptTo[k], net)
      ensures rcptTo == [] ==> !result.success
      ensures result == RelayRecord(now, mailFrom, rcptTo, successCount > 0)
    {
      successCount := 0;
      for i := 0 to |rcptTo|
        invariant successCount == DeliveredCount(mailFrom, rcptTo[..i], net)
      {
        var delivered, _ := RelayEmail(mailFrom, rcptTo[i], net);
        CountWhereSnoc(rcptTo[..i], rcptTo[i], rcpt => Relayed(mailFrom, rcpt, net));
        assert rcptTo[..i + 1] == rcptTo[..i] + [rcptTo[i]];
        if delivered {
          successCount := successCount + 1;
        }
      }
      assert rcptTo[..|rcptTo|] == rcptTo;
      CountWherePositive(rcptTo, rcpt => Relayed(mailFrom, rcpt, net));
      result := RelayRecord(now, mailFrom, rcptTo, successCount > 0);
    }

    /** The `DATA` branch of `_handle_client` after the 354 reply: chunks
        are read from `from` on until one ends with `\r\n.\r\n`, and the
        message is then processed. Returns the index of that last chunk and
        the logged result, or no result when the chunks run out first (where
        the server would go on waiting forever). */
    method ReceiveMessage(chunks: seq<string>, from: nat, mailFrom: string, rcptTo: seq<string>, net: Network, now: string)
      returns (end: nat, result: Option<TestResult>)
      requires from <= |chunks|
      ensures end == DataEnd(chunks, from)
      ensures result.None? <==> end == |chunks|
      ensures end < |chunks| ==> EndsWith(chunks[end], Terminator)
      ensures forall k :: from <= k < end ==> !EndsWith(chunks[k], Terminator)
      ensures result.Some? ==>
                result.value == RelayRecord(now, mailFrom, rcptTo, DeliveredCount(mailFrom, rcptTo, net) > 0)
    {
      end := from;
      while end < |chunks| && !EndsWith(chunks[end], Terminator)
        invariant from <= end <= |chunks|
        invariant DataEnd(chunks, end) == DataEnd(chunks, from)
      {
        end := end + 1;
      }
      if end == |chunks| {
        result := None;
      } else {
        var record, _ := ProcessEmail(mailFrom, rcptTo, net, now);
        result := Some(record);
      }
    }

    /** One turn of the `while` loop of `_handle_client`: reads the command
        in `chunks[i]` and answers it, updating the session state. */
    method Respond(chunks: seq<string>, i: nat, st: State, net: Network, now: string) returns (n: Next)
      requires i < |chunks|
      ensures n == Step(chunks, i, st, net, now)
    {
      var data := Strip(chunks[i]);
      if data == [] {
        return Stop(st, Disconnected);
      }
      var cmd := Upper(data);
      var mailFrom, rcptTo, replies := st.mailFrom, st.rcptTo, st.replies;
      if StartsWith(cmd, "EHLO") || StartsWith(cmd, "HELO") {
        assert Classify(data) == Hello;
        replies := replies + [HelloReply];
      } else if StartsWith(cmd, "MAIL FROM:") {
        assert Classify(data) == MailFrom;
        mailFrom := ExtractEmail(data);
        replies := replies + [Accepted];
      } else if StartsWith(cmd, "RCPT TO:") {
        assert Classify(data) == RcptTo;
        var rcpt := ExtractEmail(data);
        rcptTo := rcptTo + [rcpt];
        replies := replies + [Accepted];
      } else if cmd == "DATA" {
        assert Classify(data) == Data;
        replies := replies + [StartInput];
        var end, outcome := ReceiveMessage(chunks, i + 1, mailFrom, rcptTo, net, now);
        if outcome.None? {
          return Stop(st.(replies := replies), Stalled);
        }
        var result := outcome.value;
        StepCompletesData(chunks, i, st, net, now);
        replies := replies + [if result.success then Queued else DeliveryFailed];
        assert replies == st.replies + [StartInput, if result.success then Queued else DeliveryFailed];
        return Continue(State("", [], st.processed + 1, replies, st.logged + [result]), end + 1);
      } else if cmd == "QUIT" {
        assert Classify(data) == Quit;
        return Stop(st.(replies := replies + [Closing]), ClientQuit);
      } else if StartsWith(cmd, "RSET") {
        assert Classify(data) == Reset;
        mailFrom, rcptTo := "", [];
        replies := replies + [Accepted];
      } else {
        assert Classify(data) == Unrecognized;
        replies := replies + [NotRecognized];
      }
      return Continue(st.(mailFrom := mailFrom, rcptTo := rcptTo, replies := replies), i + 1);
    }

    /** `_handle_client` on a connection whose successive `recv` calls return
        `chunks`. Returns the replies sent, the results logged and how the
        session ended; the server's processed counter goes up by one per
        completed `DATA`. */
    method HandleClient(chunks: seq<string>, net: Network, now: string)
      returns (replies: seq<Reply>, logged: seq<TestResult>, ending: Ending)
      modifies this
      ensures var o := Serve(chunks, 0, Initial(old(emailsProcessed)), net, now);
              && replies == o.final.replies && logged == o.final.logged && ending == o.ending
              && emailsProcessed == o.final.processed
      ensures emailsProcessed == old(emailsProcessed) + CountWhere(replies, IsCompletion)
      ensures |logged| == CountWhere(replies, IsCompletion)
      ensures |replies| >= 1 && replies[0] == Greeting
    {
      ghost var goal := Serve(chunks, 0, Initial(emailsProcessed), net, now);
      ServeAccounting(chunks, 0, Initial(emailsProcessed), net, now);
      assert [Greeting] == [] + [Greeting];
      CountWhereSnoc([], Greeting, IsCompletion);
      var st := Initial(emailsProcessed);
      var i := 0;
      ending := Disconnected;
      var open := true;
      while open && i < |chunks|
        invariant 0 <= i <= |chunks|
        invariant st.processed == emailsProcessed
        invariant open ==> Serve(chunks, i, st, net, now) == goal && ending == Disconnected
        invariant !open ==> Outcome(st, ending) == goal
        decreases |chunks| - i + (if open then 1 else 0)
      {
        var n := Respond(chunks, i, st, net, now);
        match n {
          case Continue(st', at) =>
            st, i := st', at;
          case Stop(st', e) =>
            st, ending, open := st', e, false;
        }
        emailsProcessed := st.processed;
      }
      replies, logged := st.replies, st.logged;
    }
  }
}

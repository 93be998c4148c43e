/**
 * The alert mailer `Smtp.SendMail` (logd/mail.go:10-75): it builds a header block, copies
 * header and message into one payload, and runs the SMTP conversation, returning the first
 * error. The network is not modelled: each step's reply is an input.
 */
module Mail {
  import opened Wrappers

  /** Mailer configuration (logd/mail.go:14-21). */
  datatype Smtp = Smtp(from: string, key: string, host: string, port: string,
                       to: seq<string>, subject: string)

  /** strings.Join */
  function Join(xs: seq<string>, sep: string): (r: string)
    ensures xs == [] ==> r == []
    ensures |xs| == 1 ==> r == xs[0]
    decreases |xs|
  {
    if xs == [] then "" else if |xs| == 1 then xs[0] else xs[0] + sep + Join(xs[1..], sep)
  }

  /** The first index of c in s. */
  function IndexOf(s: string, c: char): (i: nat)
    requires c in s
    ensures i < |s| && s[i] == c && c !in s[..i]
    decreases |s|
  {
    if s[0] == c then 0 else 1 + IndexOf(s[1..], c)
  }

  /** strings.Split on one separator character: the reference reader of a joined list. */
  function Split(s: string, sep: char): (parts: seq<string>)
    ensures |parts| >= 1
    decreases |s|
  {
    if sep !in s then [s] else var i := IndexOf(s, sep); [s[..i]] + Split(s[i + 1..], sep)
  }

  /** Joining addresses that contain no comma can be undone by splitting at commas. */
  lemma {:induction false} SplitJoin(xs: seq<string>)
    requires |xs| >= 1 && forall k :: 0 <= k < |xs| ==> ',' !in xs[k]
    ensures Split(Join(xs, ","), ',') == xs
    decreases |xs|
  {
    if |xs| > 1 {
      var s := Join(xs, ",");
      assert s == xs[0] + "," + Join(xs[1..], ",");
      assert s[|xs[0]|] == ',';
      assert s[..|xs[0]|] == xs[0];
      assert ',' in s;
      assert IndexOf(s, ',') == |xs[0]|;
      assert s[|xs[0]| + 1..] == Join(xs[1..], ",");
      SplitJoin(xs[1..]);
      assert xs == [xs[0]] + xs[1..];
    }
  }

  const ContentType: string := "Content-Type:text/plain;charset=UTF-8"
  const Crlf: string := "\r\n"

  /**
   * The header block: `fmt.Sprint` of string operands only, so the pieces are concatenated
   * without separators.
   */
  function MailHeader(s: Smtp, fromname: string): string {
    "To:" + Join(s.to, ",") + Crlf + "From:" + fromname + "<" + s.from + ">"
    + Crlf + "Subject:" + s.subject + Crlf + ContentType + Crlf + Crlf
  }

  /** The header is the To line's text followed by the rest of the block. */
  lemma MailHeaderSplitsAfterTo(s: Smtp, fromname: string)
    ensures MailHeader(s, fromname) == "To:" + Join(s.to, ",") + (Crlf + Rest(s, fromname))
  {
  }

  function Rest(s: Smtp, fromname: string): string {
    "From:" + fromname + "<" + s.from + ">" + Crlf + "Subject:" + s.subject
    + Crlf + ContentType + Crlf + Crlf
  }

  /**
   * The header starts with "To:", the joined recipient list and a line break; the recipients
   * read back from that list when no address holds a comma.
   */
  lemma MailHeaderRecipients(s: Smtp, fromname: string)
    requires |s.to| >= 1 && forall k :: 0 <= k < |s.to| ==> ',' !in s.to[k]
    ensures var h := MailHeader(s, fromname);
      var to := Join(s.to, ",");
      && |h| > 5 + |to|
      && h[..3 + |to|] == "To:" + to && h[3 + |to|..5 + |to|] == Crlf
      && Split(to, ',') == s.to
  {
    MailHeaderSplitsAfterTo(s, fromname);
    var head := "To:" + Join(s.to, ",");
    var rest := Crlf + Rest(s, fromname);
    assert (head + rest)[..|head|] == head && (head + rest)[|head|..] == rest;
    SplitJoin(s.to);
  }

  /** The header block ends with the content type and the empty line before the body. */
  lemma MailHeaderEndsWithBlankLine(s: Smtp, fromname: string)
    ensures var h := MailHeader(s, fromname);
      var tail := ContentType + Crlf + Crlf;
      |h| > |tail| && h[|h| - |tail|..] == tail
  {
    var h := MailHeader(s, fromname);
    var front := "To:" + Join(s.to, ",") + Crlf + "From:" + fromname + "<" + s.from + ">"
      + Crlf + "Subject:" + s.subject + Crlf;
    var tail := ContentType + Crlf + Crlf;
    assert h == front + tail;
  }

  /**
   * The payload: a slice of len(header) + len(msg) bytes, filled by copying the header and
   * then the message after it.
   */
  method Payload(header: string, msg: string) returns (data: string)
    ensures |data| == |header| + |msg|
    ensures data[..|header|] == header && data[|header|..] == msg
  {
    var buf := new char[|header| + |msg|];
    var i := 0;
    while i < |header|
      invariant 0 <= i <= |header|
      invariant buf[..i] == header[..i]
    {
      buf[i] := header[i];
      i := i + 1;
    }
    var j := 0;
    while j < |msg|
      invariant 0 <= j <= |msg|
      invariant buf[..|header|] == header
      invariant buf[|header|..|header| + j] == msg[..j]
    {
      buf[|header| + j] := msg[j];
      j := j + 1;
    }
    data := buf[..];
    assert data[..|header|] == buf[..|header|];
    assert data[|header|..] == buf[|header|..|header| + |msg|] == msg[..|msg|] == msg;
  }

  // ---------------------------------------------------------------- the SMTP conversation

  /** The steps of the conversation, in the order SendMail issues them. */
  datatype Command =
    | Dial(addr: string)           // tls.Dial("tcp", host:port)
    | Hello(host: string)          // smtp.NewClient
    | Auth(user: string, host: string)
    | MailFrom(from: string)       // MAIL
    | Rcpt(to: string)             // RCPT, once per recipient
    | Data                         // DATA
    | Write(payload: string)
    | Close                        // the data writer's Close; its result is ignored
    | Quit                         // QUIT; its result is returned

  /** What the server (or the TLS layer) answers each step. */
  datatype Replies = Replies(dial: Status, client: Status, auth: Status, mail: Status,
                             rcpt: seq<Status>, data: Status, write: Status,
                             close: Status, quit: Status)

  /** Every step of a conversation that nothing interrupts. */
  function Commands(s: Smtp, payload: string): (cmds: seq<Command>)
    ensures |cmds| == |s.to| + 8
  {
    [Dial(s.host + ":" + s.port), Hello(s.host), Auth(s.from, s.host), MailFrom(s.from)]
    + seq(|s.to|, k requires 0 <= k < |s.to| => Rcpt(s.to[k]))
    + [Data, Write(payload), Close, Quit]
  }

  /** The replies whose error ends the conversation, aligned with the first |to| + 6 commands. */
  function Checked(r: Replies): seq<Status> {
    [r.dial, r.client, r.auth, r.mail] + r.rcpt + [r.data, r.write]
  }

  /** The index of the first failed reply, or |st| when none failed. */
  function FirstFailure(st: seq<Status>): (k: nat)
    ensures k <= |st|
    ensures forall j :: 0 <= j < k ==> st[j] == Ok
    ensures k < |st| ==> st[k].Fail?
    decreases |st|
  {
    if st == [] then 0 else if st[0].Fail? then 0 else 1 + FirstFailure(st[1..])
  }

  /**
   * The reference conversation for a given payload: the commands up to and including the
   * first failed one, and that failure; or all commands and the result of QUIT.
   */
  function Conversation(s: Smtp, payload: string, r: Replies): (seq<Command>, Status)
    requires |r.rcpt| == |s.to|
  {
    var cmds := Commands(s, payload);
    var st := Checked(r);
    var k := FirstFailure(st);
    if k < |st| then (cmds[..k + 1], st[k]) else (cmds, r.quit)
  }

  /** The conversation SendMail holds: its payload is the header followed by the message. */
  function Session(s: Smtp, fromname: string, msg: string, r: Replies): (seq<Command>, Status)
    requires |r.rcpt| == |s.to|
  {
    Conversation(s, MailHeader(s, fromname) + msg, r)
  }

  lemma CommandsLayout(s: Smtp, payload: string)
    ensures var cmds, n := Commands(s, payload), |s.to|;
      && cmds[0] == Dial(s.host + ":" + s.port) && cmds[1] == Hello(s.host)
      && cmds[2] == Auth(s.from, s.host) && cmds[3] == MailFrom(s.from)
      && (forall j :: 0 <= j < n ==> cmds[4 + j] == Rcpt(s.to[j]))
      && cmds[4 + n..] == [Data, Write(payload), Close, Quit]
  {
  }

  lemma CheckedLayout(r: Replies)
    ensures var st, n := Checked(r), |r.rcpt|;
      && |st| == n + 6
      && st[0] == r.dial && st[1] == r.client && st[2] == r.auth && st[3] == r.mail
      && (forall j :: 0 <= j < n ==> st[4 + j] == r.rcpt[j])
      && st[4 + n] == r.data && st[5 + n] == r.write
  {
  }

  /** The first failure is at k when st[k] failed and everything before it succeeded. */
  lemma FirstFailureAt(st: seq<Status>, k: nat)
    requires k <= |st| && forall j :: 0 <= j < k ==> st[j] == Ok
    requires k < |st| ==> st[k].Fail?
    ensures FirstFailure(st) == k
  {
  }

  /** A conversation whose first failed reply is at k stops after command k. */
  lemma ConversationStopsAt(s: Smtp, payload: string, r: Replies, k: nat, sent: seq<Command>)
    requires |r.rcpt| == |s.to| && k < |Checked(r)|
    requires forall j :: 0 <= j < k ==> Checked(r)[j] == Ok
    requires Checked(r)[k].Fail?
    requires sent == Commands(s, payload)[..k + 1]
    ensures Conversation(s, payload, r) == (sent, Checked(r)[k])
  {
    FirstFailureAt(Checked(r), k);
  }

  /** A conversation with no failed reply issues every command and returns QUIT's result. */
  lemma ConversationCompletes(s: Smtp, payload: string, r: Replies, sent: seq<Command>)
    requires |r.rcpt| == |s.to|
    requires forall j :: 0 <= j < |Checked(r)| ==> Checked(r)[j] == Ok
    requires sent == Commands(s, payload)[..|s.to| + 6] + [Close, Quit]
    ensures Conversation(s, payload, r) == (sent, r.quit)
  {
    var cmds, n := Commands(s, payload), |s.to|;
    CommandsLayout(s, payload);
    assert cmds[6 + n..] == cmds[4 + n..][2..] == [Close, Quit];
    assert sent == cmds[..6 + n] + cmds[6 + n..] == cmds;
    FirstFailureAt(Checked(r), |Checked(r)|);
  }

  /** The four opening commands and their replies. */
  lemma OpeningSteps(s: Smtp, payload: string, r: Replies)
    requires |r.rcpt| == |s.to|
    ensures var cmds, st := Commands(s, payload), Checked(r);
      && cmds[0] == Dial(s.host + ":" + s.port) && cmds[1] == Hello(s.host)
      && cmds[2] == Auth(s.from, s.host) && cmds[3] == MailFrom(s.from)
      && |st| == |s.to| + 6
      && st[0] == r.dial && st[1] == r.client && st[2] == r.auth && st[3] == r.mail
  {
    CommandsLayout(s, payload);
    CheckedLayout(r);
  }

  /** Recipient j is the command and the reply at 4 + j. */
  lemma RcptStep(s: Smtp, payload: string, r: Replies, j: nat)
    requires |r.rcpt| == |s.to| && j < |s.to|
    ensures Commands(s, payload)[4 + j] == Rcpt(s.to[j]) && Checked(r)[4 + j] == r.rcpt[j]
  {
    CommandsLayout(s, payload);
    CheckedLayout(r);
  }

  /** DATA and the write follow the recipients. */
  lemma FinalSteps(s: Smtp, payload: string, r: Replies)
    requires |r.rcpt| == |s.to|
    ensures var n := |s.to|;
      && Commands(s, payload)[4 + n] == Data && Commands(s, payload)[5 + n] == Write(payload)
      && |Checked(r)| == n + 6 && Checked(r)[4 + n] == r.data && Checked(r)[5 + n] == r.write
  {
    CommandsLayout(s, payload);
    CheckedLayout(r);
  }

  /** Issuing command k after the first k extends the prefix by one. */
  lemma Extend(cmds: seq<Command>, k: nat, sent: seq<Command>, c: Command)
    requires k < |cmds| && sent == cmds[..k] && cmds[k] == c
    ensures sent + [c] == cmds[..k + 1]
  {
  }

  /**
   * SendMail: the payload is the header followed by the message, and the conversation is
   * the one Converse holds with it.
   */
  method SendMail(s: Smtp, fromname: string, msg: string, r: Replies)
    returns (sent: seq<Command>, err: Status)
    requires |r.rcpt| == |s.to|
    ensures (sent, err) == Session(s, fromname, msg, r)
  {
    var header := MailHeader(s, fromname);
    var data := Payload(header, msg);
    assert data == header + msg;
    sent, err := Converse(s, data, r);
  }

  /**
   * SendMail's exchange with the server for a given payload: each step runs only if every
   * earlier step succeeded; RCPT is issued per recipient in order; the Close result is
   * ignored and QUIT's result is returned.
   */
  method Converse(s: Smtp, data: string, r: Replies) returns (sent: seq<Command>, err: Status)
    requires |r.rcpt| == |s.to|
    ensures (sent, err) == Conversation(s, data, r)
  {
    ghost var cmds := Commands(s, data);
    ghost var st := Checked(r);
    ghost var n := |s.to|;
    OpeningSteps(s, data, r);

    Extend(cmds, 0, [], Dial(s.host + ":" + s.port));
    sent := [Dial(s.host + ":" + s.port)];
    if r.dial.Fail? {
      ConversationStopsAt(s, data, r, 0, sent);
      return sent, r.dial;
    }
    Extend(cmds, 1, sent, Hello(s.host));
    sent := sent + [Hello(s.host)];
    if r.client.Fail? {
      ConversationStopsAt(s, data, r, 1, sent);
      return sent, r.client;
    }
    Extend(cmds, 2, sent, Auth(s.from, s.host));
    sent := sent + [Auth(s.from, s.host)];
    if r.auth.Fail? {
      ConversationStopsAt(s, data, r, 2, sent);
      return sent, r.auth;
    }
    Extend(cmds, 3, sent, MailFrom(s.from));
    sent := sent + [MailFrom(s.from)];
    if r.mail.Fail? {
      ConversationStopsAt(s, data, r, 3, sent);
      return sent, r.mail;
    }

    var i := 0;
    while i < |s.to|
      invariant 0 <= i <= |s.to|
      invariant sent == cmds[..4 + i]
      invariant forall j :: 0 <= j < 4 + i ==> st[j] == Ok
    {
      RcptStep(s, data, r, i);
      Extend(cmds, 4 + i, sent, Rcpt(s.to[i]));
      sent := sent + [Rcpt(s.to[i])];
      if r.rcpt[i].Fail? {
        ConversationStopsAt(s, data, r, 4 + i, sent);
        return sent, r.rcpt[i];
      }
      i := i + 1;
    }
    FinalSteps(s, data, r);
    Extend(cmds, 4 + n, sent, Data);
    sent := sent + [Data];
    if r.data.Fail? {
      ConversationStopsAt(s, data, r, 4 + n, sent);
      return sent, r.data;
    }
    Extend(cmds, 5 + n, sent, Write(data));
    sent := sent + [Write(data)];
    if r.write.Fail? {
      ConversationStopsAt(s, data, r, 5 + n, sent);
      return sent, r.write;
    }
    sent := sent + [Close];
    sent := sent + [Quit];
    ConversationCompletes(s, data, r, sent);
    err := r.quit;
  }

  /** A rejected recipient ends the conversation with its error; DATA is never requested. */
  lemma RcptRejectionStopsBeforeData(s: Smtp, fromname: string, msg: string, r: Replies, j: nat)
    requires |r.rcpt| == |s.to| && j < |s.to|
    requires r.dial == r.client == r.auth == r.mail == Ok
    requires forall i :: 0 <= i < j ==> r.rcpt[i] == Ok
    requires r.rcpt[j].Fail?
    ensures var (sent, err) := Session(s, fromname, msg, r);
      && err == r.rcpt[j]
      && |sent| == 5 + j && sent[4 + j] == Rcpt(s.to[j])
      && Data !in sent
  {
    var st := Checked(r);
    var cmds := Commands(s, MailHeader(s, fromname) + msg);
    assert st[4 + j] == r.rcpt[j];
    var k := FirstFailure(st);
    assert k == 4 + j;
    var sent := Session(s, fromname, msg, r).0;
    assert sent == cmds[..5 + j];
    forall m | 0 <= m < |sent|
      ensures sent[m] != Data
    {
      if m >= 4 {
        assert sent[m] == Rcpt(s.to[m - 4]);
      }
    }
  }

  /**
   * When every step succeeds, all steps run in order, the payload written is the header
   * followed by the message, and the conversation returns QUIT's result.
   */
  lemma AllStepsRun(s: Smtp, fromname: string, msg: string, r: Replies)
    requires |r.rcpt| == |s.to|
    requires r.dial == r.client == r.auth == r.mail == r.data == r.write == Ok
    requires forall i :: 0 <= i < |r.rcpt| ==> r.rcpt[i] == Ok
    ensures var (sent, err) := Session(s, fromname, msg, r);
      && sent == Commands(s, MailHeader(s, fromname) + msg)
      && sent[|sent| - 3] == Write(MailHeader(s, fromname) + msg)
      && sent[|sent| - 1] == Quit
      && err == r.quit
  {
    var st := Checked(r);
    forall i | 0 <= i < |st|
      ensures st[i] == Ok
    {
      if 4 <= i < 4 + |r.rcpt| {
        assert st[i] == r.rcpt[i - 4];
      }
    }
  }

  /** The Close reply never changes the outcome. */
  lemma CloseIgnored(s: Smtp, fromname: string, msg: string, r: Replies, other: Status)
    requires |r.rcpt| == |s.to|
    ensures Session(s, fromname, msg, r.(close := other)) == Session(s, fromname, msg, r)
  {
  }
}

/** A UDP-associate client and the server talking to each other over two in-order byte streams,
    in every interleaving of their reads and writes. */
module SocksSession {
  import opened Bytes
  import opened SocksAddress
  import opened SocksExchange

  datatype ClientStep = SendGreeting | ReadMethod | SendRequest | ReadReplyHead | ReadRelay | ClientDone
  datatype ServerStep = ReadVersion | ReadMethods | SendMethod | ReadRequest | ReadTarget | SendReply | ServerDone

  /** Where both stand, what is under way in each direction, and what each has learnt. */
  datatype State = State(client: ClientStep, server: ServerStep, up: seq<Byte>, down: seq<Byte>,
                         methods: nat, cmd: Byte, target: seq<Byte>, relay: seq<Byte>)

  datatype Party = Client | Server

  const START := State(SendGreeting, ReadVersion, [], [], 0, 0, [], [])

  /** A blocking read goes ahead once enough bytes are there. */
  predicate Enabled(s: State, who: Party) {
    match who
    case Client => (
      match s.client
      case SendGreeting => true
      case ReadMethod => |s.down| >= 2
      case SendRequest => true
      case ReadReplyHead => |s.down| >= 3
      case ReadRelay => SplitAddr(s.down).Some?
      case ClientDone => false)
    case Server => (
      match s.server
      case ReadVersion => |s.up| >= 2
      case ReadMethods => |s.up| >= s.methods
      case SendMethod => true
      case ReadRequest => |s.up| >= 3
      case ReadTarget => SplitAddr(s.up).Some?
      case SendReply => true
      case ServerDone => false)
  }

  /** One step; the server answers the request with the reply it is given. */
  function Apply(s: State, who: Party, reply: seq<Byte>): State
    requires Enabled(s, who)
  {
    match who
    case Client => (
      match s.client
      case SendGreeting => s.(client := ReadMethod, up := s.up + GREETING)
      case ReadMethod => s.(client := SendRequest, down := s.down[2..])
      case SendRequest => s.(client := ReadReplyHead, up := s.up + ASSOCIATE)
      case ReadReplyHead => s.(client := ReadRelay, down := s.down[3..])
      case ReadRelay =>
        var a := SplitAddr(s.down).value;
        s.(client := ClientDone, relay := a, down := s.down[|a|..]))
    case Server => (
      match s.server
      case ReadVersion => s.(server := ReadMethods, methods := s.up[1], up := s.up[2..])
      case ReadMethods => s.(server := SendMethod, up := s.up[s.methods..])
      case SendMethod => s.(server := ReadRequest, down := s.down + [5, 0])
      case ReadRequest => s.(server := ReadTarget, cmd := s.up[1], up := s.up[3..])
      case ReadTarget =>
        var a := SplitAddr(s.up).value;
        s.(server := SendReply, target := a, up := s.up[|a|..])
      case SendReply => s.(server := ServerDone, down := s.down + reply))
  }

  function Run(es: seq<Party>, reply: seq<Byte>): Option<State> {
    if es == [] then Some(START)
    else
      match Run(es[..|es| - 1], reply)
      case None => None
      case Some(s) => if Enabled(s, es[|es| - 1]) then Some(Apply(s, es[|es| - 1], reply)) else None
  }

  // ----- the streams are what was written less what was read -----

  function SentUp(c: ClientStep): seq<Byte> {
    match c
    case SendGreeting => []
    case ReadMethod => GREETING
    case SendRequest => GREETING
    case _ => GREETING + ASSOCIATE
  }

  function TakenUp(v: ServerStep): nat {
    match v
    case ReadVersion => 0
    case ReadMethods => 2
    case SendMethod => 3
    case ReadRequest => 3
    case ReadTarget => 6
    case _ => 13
  }

  function SentDown(v: ServerStep, reply: seq<Byte>): seq<Byte> {
    match v
    case ServerDone => [5, 0] + reply
    case ReadRequest => [5, 0]
    case ReadTarget => [5, 0]
    case SendReply => [5, 0]
    case _ => []
  }

  function TakenDown(c: ClientStep, reply: seq<Byte>): nat {
    match c
    case SendGreeting => 0
    case ReadMethod => 0
    case SendRequest => 2
    case ReadReplyHead => 2
    case ReadRelay => 5
    case ClientDone => 2 + |reply|
  }

  ghost predicate Streams(s: State, reply: seq<Byte>) {
    && TakenUp(s.server) <= |SentUp(s.client)| && s.up == SentUp(s.client)[TakenUp(s.server)..]
    && TakenDown(s.client, reply) <= |SentDown(s.server, reply)|
    && s.down == SentDown(s.server, reply)[TakenDown(s.client, reply)..]
  }

  ghost predicate Learnt(s: State, bound: seq<Byte>) {
    && (s.server == ReadMethods ==> s.methods == 1)
    && (s.server in {ReadTarget, SendReply, ServerDone} ==> s.cmd == 3)
    && (s.server in {SendReply, ServerDone} ==> s.target == ANY)
    && (s.client == ClientDone ==> s.relay == bound)
  }

  function Steps(s: State): nat {
    ClientSteps(s.client) + ServerSteps(s.server)
  }

  function ClientSteps(c: ClientStep): nat {
    match c
    case SendGreeting => 0
    case ReadMethod => 1
    case SendRequest => 2
    case ReadReplyHead => 3
    case ReadRelay => 4
    case ClientDone => 5
  }

  function ServerSteps(v: ServerStep): nat {
    match v
    case ReadVersion => 0
    case ReadMethods => 1
    case SendMethod => 2
    case ReadRequest => 3
    case ReadTarget => 4
    case SendReply => 5
    case ServerDone => 6
  }

  lemma DropMore(a: seq<Byte>, b: seq<Byte>, n: nat)
    requires n <= |a|
    ensures a[n..] + b == (a + b)[n..]
  {
  }

  lemma DropTwice(a: seq<Byte>, n: nat, m: nat)
    requires n + m <= |a|
    ensures a[n..][m..] == a[n + m..]
  {
  }

  lemma RequestIsRead(s: State, reply: seq<Byte>)
    requires Streams(s, reply) && s.server == ReadTarget
    ensures SplitAddr(s.up) == Some(ANY)
  {
    var all := GREETING + ASSOCIATE;
    assert |SentUp(s.client)| >= 6;
    assert s.up == all[6..] == ANY;
    SplitIsExact(s.up, ANY);
  }

  lemma ReplyIsRead(s: State, rep: Byte, bound: seq<Byte>)
    requires Streams(s, Reply(rep, bound)) && s.client == ReadRelay && IsAddr(bound)
    ensures SplitAddr(s.down) == Some(bound)
  {
    var all := [5, 0] + Reply(rep, bound);
    assert |SentDown(s.server, Reply(rep, bound))| >= 5;
    assert s.down == all[5..] == bound;
    SplitIsExact(s.down, bound);
  }

  lemma ClientKeeps(s: State, rep: Byte, bound: seq<Byte>)
    requires IsAddr(bound) && Streams(s, Reply(rep, bound)) && Learnt(s, bound) && Enabled(s, Client)
    ensures var t := Apply(s, Client, Reply(rep, bound));
            Streams(t, Reply(rep, bound)) && Learnt(t, bound) && Steps(t) == Steps(s) + 1
  {
    var reply := Reply(rep, bound);
    var taken, sent := TakenUp(s.server), SentUp(s.client);
    match s.client
    case SendGreeting => DropMore(sent, GREETING, taken);
    case SendRequest => DropMore(sent, ASSOCIATE, taken);
    case ReadMethod => DropTwice(SentDown(s.server, reply), 0, 2);
    case ReadReplyHead => DropTwice(SentDown(s.server, reply), 2, 3);
    case ReadRelay =>
      ReplyIsRead(s, rep, bound);
      DropTwice(SentDown(s.server, reply), 5, |bound|);
  }

  ghost predicate ServerStepKeeps(s: State, reply: seq<Byte>, bound: seq<Byte>)
    requires Enabled(s, Server)
  {
    var t := Apply(s, Server, reply);
    Streams(t, reply) && Learnt(t, bound) && Steps(t) == Steps(s) + 1
  }

  lemma ServerReadsGreeting(s: State, reply: seq<Byte>, bound: seq<Byte>)
    requires Streams(s, reply) && Learnt(s, bound) && Enabled(s, Server) && s.server in {ReadVersion, ReadMethods}
    ensures ServerStepKeeps(s, reply, bound)
  {
    assert SentUp(s.client)[1] == 1;
    if s.server == ReadVersion {
      DropTwice(SentUp(s.client), 0, 2);
    } else {
      DropTwice(SentUp(s.client), 2, 1);
    }
  }

  lemma ServerReadsRequest(s: State, reply: seq<Byte>, bound: seq<Byte>)
    requires Streams(s, reply) && Learnt(s, bound) && Enabled(s, Server) && s.server in {ReadRequest, ReadTarget}
    ensures ServerStepKeeps(s, reply, bound)
  {
    if s.server == ReadRequest {
      assert SentUp(s.client) == GREETING + ASSOCIATE;
      assert s.up[1] == SentUp(s.client)[4] == 3;
      DropTwice(SentUp(s.client), 3, 3);
    } else {
      RequestIsRead(s, reply);
      DropTwice(SentUp(s.client), 6, 7);
    }
  }

  lemma ServerSends(s: State, reply: seq<Byte>, bound: seq<Byte>)
    requires Streams(s, reply) && Learnt(s, bound) && Enabled(s, Server) && s.server in {SendMethod, SendReply}
    ensures ServerStepKeeps(s, reply, bound)
  {
    var sent, taken := SentDown(s.server, reply), TakenDown(s.client, reply);
    if s.server == SendMethod {
      DropMore(sent, [5, 0], taken);
    } else {
      DropMore(sent, reply, taken);
    }
  }

  lemma ServerKeeps(s: State, reply: seq<Byte>, bound: seq<Byte>)
    requires Streams(s, reply) && Learnt(s, bound) && Enabled(s, Server)
    ensures ServerStepKeeps(s, reply, bound)
  {
    match s.server
    case ReadVersion => ServerReadsGreeting(s, reply, bound);
    case ReadMethods => ServerReadsGreeting(s, reply, bound);
    case ReadRequest => ServerReadsRequest(s, reply, bound);
    case ReadTarget => ServerReadsRequest(s, reply, bound);
    case _ => ServerSends(s, reply, bound);
  }

  /** In every interleaving the streams and what was learnt are determined by how far each side has come. */
  lemma {:induction false} SessionInv(es: seq<Party>, rep: Byte, bound: seq<Byte>)
    requires IsAddr(bound) && Run(es, Reply(rep, bound)).Some?
    ensures var s := Run(es, Reply(rep, bound)).value;
            Streams(s, Reply(rep, bound)) && Learnt(s, bound) && Steps(s) == |es|
  {
    if es != [] {
      SessionInv(es[..|es| - 1], rep, bound);
      var s := Run(es[..|es| - 1], Reply(rep, bound)).value;
      if es[|es| - 1] == Client {
        ClientKeeps(s, rep, bound);
      } else {
        ServerKeeps(s, Reply(rep, bound), bound);
      }
    }
  }

  /** The two never wait for each other at once. */
  lemma NoDeadlock(es: seq<Party>, rep: Byte, bound: seq<Byte>)
    requires IsAddr(bound) && Run(es, Reply(rep, bound)).Some?
    ensures |es| < 11 ==> exists who :: Enabled(Run(es, Reply(rep, bound)).value, who)
  {
    SessionInv(es, rep, bound);
    var s := Run(es, Reply(rep, bound)).value;
    assert Enabled(s, Client) || Enabled(s, Server) || |es| >= 11 by {
      if s.server == ReadTarget {
        RequestIsRead(s, Reply(rep, bound));
      }
      if s.client == ReadRelay {
        ReplyIsRead(s, rep, bound);
      }
    }
  }

  /** Whatever the interleaving, the session takes at most eleven steps, and after eleven both sides are done,
      each has consumed exactly what the other wrote, the server has the command and the target, and the
      client has the relay address. */
  lemma SessionCompletes(es: seq<Party>, rep: Byte, bound: seq<Byte>)
    requires IsAddr(bound) && Run(es, Reply(rep, bound)).Some?
    ensures |es| <= 11
    ensures |es| == 11 ==>
              var s := Run(es, Reply(rep, bound)).value;
              && s.client == ClientDone && s.server == ServerDone && s.up == [] && s.down == []
              && s.cmd == 3 && s.target == ANY && s.relay == bound
  {
    SessionInv(es, rep, bound);
  }
}

/** The PLAIN handshake between a client and a server, with or without an authenticator. */
module Plain {
  import opened Basics
  import opened Framing
  import opened Metadata

  /** What both peers are configured with. */
  datatype Options = Options(socket: SocketType, identity: seq<Byte>, username: seq<Byte>, password: seq<Byte>)

  /** Identities are kept to 255 bytes by the socket options. */
  predicate ValidOptions(o: Options) {
    |o.username| < 256 && |o.password| < 256 && |o.identity| < 256
  }

  function Command(name: string): seq<Byte>
    requires IsText(name) && |name| < 256
  {
    [|name|] + Bytes(name)
  }

  function HELLO(): seq<Byte> { Command("HELLO") }
  function WELCOME(): seq<Byte> { Command("WELCOME") }
  function INITIATE(): seq<Byte> { Command("INITIATE") }
  function READY(): seq<Byte> { Command("READY") }
  function ERROR(): seq<Byte> { Command("ERROR") }

  /** The names of the commands as they travel: a length, and ASCII. */
  lemma CommandBytes()
    ensures HELLO() == [5, 72, 69, 76, 76, 79]
    ensures WELCOME() == [7, 87, 69, 76, 67, 79, 77, 69]
    ensures INITIATE() == [8, 73, 78, 73, 84, 73, 65, 84, 69]
    ensures READY() == [5, 82, 69, 65, 68, 89]
    ensures ERROR() == [5, 69, 82, 82, 79, 82]
    ensures OK() == [50, 48, 48]
  {
    assert 'A' as int == 65 && 'C' as int == 67 && 'D' as int == 68 && 'E' as int == 69 && 'H' as int == 72;
    assert 'I' as int == 73 && 'L' as int == 76 && 'M' as int == 77 && 'N' as int == 78 && 'O' as int == 79;
    assert 'R' as int == 82 && 'T' as int == 84 && 'W' as int == 87 && 'Y' as int == 89;
    assert '2' as int == 50 && '0' as int == 48;
  }

  predicate StartsWith(s: seq<Byte>, prefix: seq<Byte>) {
    prefix <= s
  }

  function ProduceHello(username: seq<Byte>, password: seq<Byte>): seq<Byte>
    requires |username| < 256 && |password| < 256
  {
    HELLO() + [|username|] + username + [|password|] + password
  }

  /** The server's reading of HELLO, with a cursor. */
  method ProcessHello(s: seq<Byte>) returns (r: Option<(seq<Byte>, seq<Byte>)>)
    ensures r == ReadHello(s)
  {
    var left := |s|;
    if left < 6 || s[..6] != HELLO() {
      return None;
    }
    left := left - 6;
    if left < 1 {
      return None;
    }
    var n: int := s[6];
    left := left - 1;
    if left < n {
      return None;
    }
    var username := s[7..7 + n];
    left := left - n;
    if left < 1 {
      return None;
    }
    var m: int := s[7 + n];
    left := left - 1;
    if left < m {
      return None;
    }
    var password := s[8 + n..8 + n + m];
    left := left - m;
    if left > 0 {
      return None;
    }
    assert s[8 + n..8 + n + m] == s[8 + n..];
    return Some((username, password));
  }

  function ReadHello(s: seq<Byte>): Option<(seq<Byte>, seq<Byte>)> {
    if |s| < 7 || s[..6] != HELLO() then None
    else
      var n: int := s[6];
      if |s| < 8 + n then None
      else
        var m: int := s[7 + n];
        if |s| != 8 + n + m then None else Some((s[7..7 + n], s[8 + n..]))
  }

  /** The server reads a username and a password exactly from what a client with these sends. */
  lemma HelloRoundTrip(s: seq<Byte>, username: seq<Byte>, password: seq<Byte>)
    ensures ReadHello(s) == Some((username, password))
            <==> |username| < 256 && |password| < 256 && s == ProduceHello(username, password)
  {
    if |username| < 256 && |password| < 256 {
      var t := ProduceHello(username, password);
      assert t[..6] == HELLO() && t[6] == |username| && t[7..7 + |username|] == username;
      assert t[7 + |username|] == |password| && t[8 + |username|..] == password;
    }
    if ReadHello(s) == Some((username, password)) {
      var n: int := s[6];
      assert s == s[..6] + [s[6]] + s[7..7 + n] + [s[7 + n]] + s[8 + n..];
    }
  }

  /** HELLO, byte by byte. */
  lemma HelloBytes(username: seq<Byte>, password: seq<Byte>)
    requires |username| < 256 && |password| < 256
    ensures var s, n, m := ProduceHello(username, password), |username|, |password|;
      && |s| == 8 + n + m && s[..6] == [5, 72, 69, 76, 76, 79]
      && s[6] == n && s[7..7 + n] == username && s[7 + n] == m && s[8 + n..] == password
  {
    CommandBytes();
    var s, n := ProduceHello(username, password), |username|;
    assert s == HELLO() + [n] + username + [|password|] + password;
  }

  predicate SendsIdentity(t: SocketType) {
    t.REQ? || t.DEALER? || t.ROUTER?
  }

  function SocketTypeProperty(t: SocketType): Property {
    SocketTypesAreText(t);
    Property(Bytes("Socket-Type"), Bytes(SocketTypeString(t)))
  }

  lemma SocketTypesAreText(t: SocketType)
    ensures IsText(SocketTypeString(t))
  {}

  function Properties(o: Options): seq<Property> {
    [SocketTypeProperty(o.socket)] + (if SendsIdentity(o.socket) then [Property(Bytes("Identity"), o.identity)] else [])
  }

  /** What a peer tells of itself: the name of its type, and for the three types that are addressed by it
      its identity. */
  lemma PropertiesTold(o: Options)
    ensures var ps := Properties(o);
      && |ps| == (if o.socket == REQ || o.socket == DEALER || o.socket == ROUTER then 2 else 1)
      && Text(ps[0].name) == "Socket-Type" && Text(ps[0].value) == SocketTypeString(o.socket)
      && (|ps| == 2 ==> Text(ps[1].name) == "Identity" && ps[1].value == o.identity)
  {
    SocketTypesAreText(o.socket);
    TextOfBytes("Socket-Type");
    TextOfBytes(SocketTypeString(o.socket));
    TextOfBytes("Identity");
  }

  lemma PropertiesEncodable(o: Options)
    requires ValidOptions(o)
    ensures forall p :: p in Properties(o) ==> Encodable(p)
  {
    assert Power(4) > 256;
  }

  lemma PropertiesFit(o: Options, t: SocketType)
    ensures (forall p :: p in Properties(o) ==> Fits(t, p)) <==> CheckSocketType(t, SocketTypeString(o.socket))
  {
    var p := SocketTypeProperty(o.socket);
    SocketTypesAreText(o.socket);
    TextOfBytes(SocketTypeString(o.socket));
    TextOfBytes("Socket-Type");
    TextOfBytes("Identity");
    assert p in Properties(o);
    assert Fits(t, p) <==> CheckSocketType(t, SocketTypeString(o.socket));
    assert "Identity"[0] != "Socket-Type"[0];
  }

  function ProduceInitiate(o: Options): seq<Byte>
    requires ValidOptions(o)
  {
    PropertiesEncodable(o);
    INITIATE() + AddProperties(Properties(o))
  }

  function ProduceReady(o: Options): seq<Byte>
    requires ValidOptions(o)
  {
    PropertiesEncodable(o);
    READY() + AddProperties(Properties(o))
  }

  function ProduceError(status: seq<Byte>): seq<Byte>
    requires |status| == 3
  {
    ERROR() + [|status|] + status
  }

  /** INITIATE and READY are their names and what the sender tells of itself; ERROR carries a status of
      three bytes behind its length. */
  lemma CommandsTold(o: Options, status: seq<Byte>)
    requires ValidOptions(o) && |status| == 3
    ensures forall p :: p in Properties(o) ==> Encodable(p)
    ensures ProduceInitiate(o) == [8, 73, 78, 73, 84, 73, 65, 84, 69] + AddProperties(Properties(o))
    ensures ProduceReady(o) == [5, 82, 69, 65, 68, 89] + AddProperties(Properties(o))
    ensures ProduceError(status) == [5, 69, 82, 82, 79, 82, 3, status[0], status[1], status[2]]
  {
    PropertiesEncodable(o);
    CommandBytes();
  }

  /** A peer finds the other's properties in its command exactly when the socket types fit. */
  lemma PropertiesExchanged(o: Options, t: SocketType)
    requires ValidOptions(o)
    ensures (forall p :: p in Properties(o) ==> Encodable(p))
    ensures CheckSocketType(t, SocketTypeString(o.socket)) ==>
              ParseMetadata(AddProperties(Properties(o)), t) == (Properties(o), Fine)
    ensures !CheckSocketType(t, SocketTypeString(o.socket)) ==>
              ParseMetadata(AddProperties(Properties(o)), t).1 == Einval
  {
    PropertiesEncodable(o);
    PropertiesFit(o, t);
    var s := AddProperties(Properties(o));
    if CheckSocketType(t, SocketTypeString(o.socket)) {
      assert s + [] == s;
      ParsesWhatWasAdded(Properties(o), [], t);
    } else {
      var p := SocketTypeProperty(o.socket);
      SocketTypesAreText(o.socket);
      TextOfBytes(SocketTypeString(o.socket));
      TextOfBytes("Socket-Type");
      ScanAdded(p, AddProperties(Properties(o)[1..]));
    }
  }

  datatype ClientState = SendingHello | WaitingForWelcome | SendingInitiate | WaitingForReady | ClientReady | ErrorReceived

  datatype ServerState =
    | WaitingForHello | WaitingForZapReply | SendingWelcome | WaitingForInitiate | SendingReady | ServerReady
    | SendingError | ErrorSent

  /** What a step of a mechanism returns. */
  datatype Rc = Handled | Again | Refused(v: Verdict)

  /** The authenticator's part: there is none, its answer is not there yet, or it answers with
      a status code of three bytes. */
  datatype Zap = NoZap | Pending | Answer(code: seq<Byte>)

  function OK(): seq<Byte> { Bytes("200") }

  function ClientNext(c: ClientState, o: Options): (ClientState, Rc, seq<Byte>)
    requires ValidOptions(o)
  {
    match c
    case SendingHello => (WaitingForWelcome, Handled, ProduceHello(o.username, o.password))
    case SendingInitiate => (WaitingForReady, Handled, ProduceInitiate(o))
    case _ => (c, Again, [])
  }

  function ClientProcess(c: ClientState, s: seq<Byte>, t: SocketType): (ClientState, Rc, seq<Property>) {
    if StartsWith(s, WELCOME()) then
      if c != WaitingForWelcome || |s| != 8 then (c, Refused(Eproto), []) else (SendingInitiate, Handled, [])
    else if StartsWith(s, READY()) then
      if c != WaitingForReady then (c, Refused(Eproto), [])
      else
        var (ps, v) := ParseMetadata(s[6..], t);
        if v == Fine then (ClientReady, Handled, ps) else (c, Refused(v), ps)
    else if StartsWith(s, ERROR()) then
      if (c != WaitingForWelcome && c != WaitingForReady) || |s| < 7 || s[6] > |s| - 7 then (c, Refused(Eproto), [])
      else (ErrorReceived, Handled, [])
    else (c, Refused(Eproto), [])
  }

  function ServerNext(v: ServerState, o: Options, status: seq<Byte>): (ServerState, Rc, seq<Byte>)
    requires ValidOptions(o) && (v.SendingError? ==> |status| == 3)
  {
    match v
    case SendingWelcome => (WaitingForInitiate, Handled, WELCOME())
    case SendingReady => (ServerReady, Handled, ProduceReady(o))
    case SendingError => (ErrorSent, Handled, ProduceError(status))
    case _ => (v, Again, [])
  }

  function Admit(zap: Zap): ServerState {
    match zap
    case NoZap => SendingWelcome
    case Pending => WaitingForZapReply
    case Answer(code) => if code == OK() then SendingWelcome else SendingError
  }

  function ServerHello(s: seq<Byte>, zap: Zap): (ServerState, Rc) {
    if ReadHello(s).None? then (WaitingForHello, Refused(Eproto)) else (Admit(zap), Handled)
  }

  function ServerInitiate(s: seq<Byte>, t: SocketType): (ServerState, Rc, seq<Property>) {
    if !StartsWith(s, INITIATE()) then (WaitingForInitiate, Refused(Eproto), [])
    else
      var (ps, v) := ParseMetadata(s[9..], t);
      if v == Fine then (SendingReady, Handled, ps) else (WaitingForInitiate, Refused(v), ps)
  }

  function ServerProcess(v: ServerState, s: seq<Byte>, t: SocketType, zap: Zap): (ServerState, Rc, seq<Property>) {
    match v
    case WaitingForHello => (ServerHello(s, zap).0, ServerHello(s, zap).1, [])
    case WaitingForInitiate => ServerInitiate(s, t)
    case _ => (v, Refused(Eproto), [])
  }

  // The messages a client takes, by their bytes.

  predicate IsWelcome(c: ClientState, s: seq<Byte>) {
    c == WaitingForWelcome && s == [7, 87, 69, 76, 67, 79, 77, 69]
  }

  predicate IsReady(c: ClientState, s: seq<Byte>) {
    c == WaitingForReady && [5, 82, 69, 65, 68, 89] <= s
  }

  predicate IsError(c: ClientState, s: seq<Byte>) {
    && (c == WaitingForWelcome || c == WaitingForReady)
    && [5, 69, 82, 82, 79, 82] <= s && |s| > 6 && s[6] as int <= |s| - 7
  }

  lemma OneKind(c: ClientState, s: seq<Byte>)
    ensures IsWelcome(c, s) ==> WELCOME() <= s && |s| == 8
    ensures WELCOME() <= s ==> !(READY() <= s) && !(ERROR() <= s) && (|s| == 8 ==> s == [7, 87, 69, 76, 67, 79, 77, 69])
    ensures READY() <= s ==> !(ERROR() <= s)
  {
    CommandBytes();
    if WELCOME() <= s {
      assert s[0] == 7;
    } else if READY() <= s {
      assert s[1] == 82;
    }
  }

  /** Which messages a client takes, and where each leads; any other is refused and changes nothing. */
  lemma ClientTakes(c: ClientState, s: seq<Byte>, t: SocketType)
    ensures var (c', rc, ps) := ClientProcess(c, s, t);
      && (IsWelcome(c, s) ==> c' == SendingInitiate && rc == Handled)
      && (IsReady(c, s) ==>
            if ParseMetadata(s[6..], t).1 == Fine then c' == ClientReady && rc == Handled && ps == ParseMetadata(s[6..], t).0
            else c' == c && rc == Refused(ParseMetadata(s[6..], t).1))
      && (IsError(c, s) ==> c' == ErrorReceived && rc == Handled)
      && (!IsWelcome(c, s) && !IsReady(c, s) && !IsError(c, s) ==> c' == c && rc == Refused(Eproto))
  {
    CommandBytes();
    OneKind(c, s);
  }

  /** Which HELLO a server takes, and where the authenticator's answer leads; 200 alone lets in. */
  lemma ServerTakesHello(s: seq<Byte>, t: SocketType, zap: Zap)
    ensures var (v', rc, ps) := ServerProcess(WaitingForHello, s, t, zap);
      && (rc == Handled <==>
            exists username, password :: |username| < 256 && |password| < 256 && s == ProduceHello(username, password))
      && (rc == Handled ==>
            && (v' == SendingWelcome <==> zap == NoZap || zap == Answer([50, 48, 48]))
            && (v' == WaitingForZapReply <==> zap == Pending)
            && (v' == SendingError <==> zap.Answer? && zap.code != [50, 48, 48]))
      && (rc != Handled ==> v' == WaitingForHello && rc == Refused(Eproto))
  {
    CommandBytes();
    if ReadHello(s).Some? {
      HelloRoundTrip(s, ReadHello(s).value.0, ReadHello(s).value.1);
    }
    forall username: seq<Byte>, password: seq<Byte> | |username| < 256 && |password| < 256 && s == ProduceHello(username, password)
      ensures ReadHello(s).Some?
    {
      HelloRoundTrip(s, username, password);
    }
  }

  /** Which INITIATE it takes; in any other state it takes nothing. */
  lemma ServerTakes(v: ServerState, s: seq<Byte>, t: SocketType, zap: Zap)
    requires v != WaitingForHello
    ensures var (v', rc, ps) := ServerProcess(v, s, t, zap);
      && (rc == Handled <==>
            v == WaitingForInitiate && [8, 73, 78, 73, 84, 73, 65, 84, 69] <= s && ParseMetadata(s[9..], t).1 == Fine)
      && (rc == Handled ==> v' == SendingReady && ps == ParseMetadata(s[9..], t).0)
      && (rc != Handled ==> v' == v && rc.Refused?)
      && (rc == Refused(Einval) <==>
            v == WaitingForInitiate && [8, 73, 78, 73, 84, 73, 65, 84, 69] <= s && ParseMetadata(s[9..], t).1 == Einval)
  {
    CommandBytes();
  }

  /** The handshake: both peers, what is on its way, and what each has learnt.  `asked` are the
      credentials the authenticator was asked about, `status` its answer. */
  datatype State = State(client: ClientState, server: ServerState, toServer: seq<seq<Byte>>, toClient: seq<seq<Byte>>,
                         clientHas: seq<Property>, serverHas: seq<Property>,
                         asked: Option<(seq<Byte>, seq<Byte>)>, zap: Zap, refused: Option<Verdict>)

  datatype Action = ClientSends | ClientReceives | ServerSends | ServerReceives(zap: Zap) | ZapAnswers(code: seq<Byte>)

  predicate WellFormed(zap: Zap) {
    zap.Answer? ==> |zap.code| == 3
  }

  predicate Enabled(s: State, a: Action, co: Options, so: Options)
    requires ValidOptions(co)
  {
    && s.refused.None?
    && match a
       case ClientSends => ClientNext(s.client, co).1.Handled?
       case ClientReceives => s.toClient != []
       case ServerSends => s.server.SendingWelcome? || s.server.SendingReady? || (s.server.SendingError? && s.zap.Answer? && |s.zap.code| == 3)
       case ServerReceives(zap) => s.toServer != [] && WellFormed(zap)
       case ZapAnswers(code) => s.server.WaitingForZapReply? && |code| == 3
  }

  function Refusal(rc: Rc): Option<Verdict> {
    if rc.Refused? then Some(rc.v) else None
  }

  function Step(s: State, a: Action, co: Options, so: Options): State
    requires ValidOptions(co) && ValidOptions(so) && Enabled(s, a, co, so)
  {
    match a
    case ClientSends =>
      var (c, _, m) := ClientNext(s.client, co);
      s.(client := c, toServer := s.toServer + [m])
    case ClientReceives =>
      var (c, rc, ps) := ClientProcess(s.client, s.toClient[0], co.socket);
      s.(client := c, toClient := s.toClient[1..], clientHas := ps, refused := Refusal(rc))
    case ServerSends =>
      var (v, _, m) := ServerNext(s.server, so, if s.zap.Answer? then s.zap.code else []);
      s.(server := v, toClient := s.toClient + [m])
    case ServerReceives(zap) =>
      var (v, rc, ps) := ServerProcess(s.server, s.toServer[0], so.socket, zap);
      var t := s.(server := v, toServer := s.toServer[1..], serverHas := ps, refused := Refusal(rc));
      if s.server.WaitingForHello? then
        t.(zap := zap, asked := if zap.NoZap? then None else ReadHello(s.toServer[0]))
      else t
    case ZapAnswers(code) => s.(server := Admit(Answer(code)), zap := Answer(code))
  }

  function Start(): State {
    State(SendingHello, WaitingForHello, [], [], [], [], None, NoZap, None)
  }

  /** Who has sent what: each command in flight belongs to exactly one point of the handshake. */
  ghost predicate InStep(s: State, co: Options, so: Options)
    requires ValidOptions(co) && ValidOptions(so)
  {
    match s.client
    case SendingHello => s.server.WaitingForHello? && s.toServer == [] && s.toClient == []
    case WaitingForWelcome =>
      (match s.server
       case WaitingForHello => s.toServer == [ProduceHello(co.username, co.password)] && s.toClient == []
       case WaitingForZapReply => s.toServer == [] && s.toClient == []
       case SendingWelcome => s.toServer == [] && s.toClient == []
       case SendingError => s.toServer == [] && s.toClient == [] && s.zap.Answer?
       case WaitingForInitiate => s.toServer == [] && s.toClient == [WELCOME()]
       case ErrorSent => s.toServer == [] && s.zap.Answer? && |s.zap.code| == 3 && s.toClient == [ProduceError(s.zap.code)]
       case _ => false)
    case SendingInitiate => s.server.WaitingForInitiate? && s.toServer == [] && s.toClient == []
    case WaitingForReady =>
      (match s.server
       case WaitingForInitiate => s.toServer == [ProduceInitiate(co)] && s.toClient == []
       case SendingReady => s.toServer == [] && s.toClient == []
       case ServerReady => s.toServer == [] && s.toClient == [ProduceReady(so)]
       case _ => false)
    case ClientReady => s.server.ServerReady? && s.toServer == [] && s.toClient == []
    case ErrorReceived => s.server.ErrorSent? && s.toServer == [] && s.toClient == []
  }

  /** A client is let in only without an authenticator or on its status code 200, given for
      the client's own credentials. */
  ghost predicate LetIn(s: State, co: Options) {
    && (s.server.SendingWelcome? || s.server.WaitingForInitiate? || s.server.SendingReady? || s.server.ServerReady? ==>
          s.zap.NoZap? || s.zap == Answer(OK()))
    && (s.server.WaitingForZapReply? ==> s.zap.Pending?)
    && (s.server.SendingError? || s.server.ErrorSent? ==> s.zap.Answer? && s.zap.code != OK())
    && (!s.server.WaitingForHello? && !s.zap.NoZap? ==> s.asked == Some((co.username, co.password)))
  }

  /** Each side that is through has the other's properties. */
  ghost predicate Learnt(s: State, co: Options, so: Options) {
    && (s.server.SendingReady? || s.server.ServerReady? ==> s.serverHas == Properties(co))
    && (s.client.ClientReady? ==> s.clientHas == Properties(so))
  }

  ghost predicate Inv(s: State, co: Options, so: Options)
    requires ValidOptions(co) && ValidOptions(so)
  {
    s.refused.None? && WellFormed(s.zap) && InStep(s, co, so) && LetIn(s, co) && Learnt(s, co, so)
  }

  ghost predicate Compatible(co: Options, so: Options) {
    CheckSocketType(co.socket, SocketTypeString(so.socket)) && CheckSocketType(so.socket, SocketTypeString(co.socket))
  }

  lemma StepKeeps(s: State, a: Action, co: Options, so: Options)
    requires ValidOptions(co) && ValidOptions(so) && Compatible(co, so)
    requires Inv(s, co, so) && Enabled(s, a, co, so)
    ensures Inv(Step(s, a, co, so), co, so)
  {
    match a
    case ClientSends =>
    case ClientReceives => ClientReceivesWell(s, co, so);
    case ServerSends =>
    case ServerReceives(zap) => ServerReceivesWell(s, zap, co, so);
    case ZapAnswers(code) =>
  }

  lemma ClientReceivesWell(s: State, co: Options, so: Options)
    requires ValidOptions(co) && ValidOptions(so) && Compatible(co, so)
    requires Inv(s, co, so) && s.toClient != []
    ensures Inv(Step(s, ClientReceives, co, so), co, so)
  {
    CommandsDiffer();
    var m := s.toClient[0];
    if s.server.ServerReady? {
      PropertiesExchanged(so, co.socket);
      assert m[6..] == AddProperties(Properties(so));
      assert m[0] == 5;
    }
  }

  lemma ServerReceivesWell(s: State, zap: Zap, co: Options, so: Options)
    requires ValidOptions(co) && ValidOptions(so) && Compatible(co, so)
    requires Inv(s, co, so) && s.toServer != [] && WellFormed(zap)
    ensures Inv(Step(s, ServerReceives(zap), co, so), co, so)
  {
    var m := s.toServer[0];
    if s.server.WaitingForHello? {
      HelloRoundTrip(m, co.username, co.password);
    } else {
      PropertiesExchanged(co, so.socket);
      assert m[9..] == AddProperties(Properties(co));
    }
  }

  lemma CommandsDiffer()
    ensures |WELCOME()| == 8 && |READY()| == 6 && |ERROR()| == 6 && |INITIATE()| == 9 && |HELLO()| == 6
    ensures WELCOME()[0] == 7 && READY()[0] == 5 && ERROR()[0] == 5 && READY()[1] != ERROR()[1]
  {}

  lemma StartHolds(co: Options, so: Options)
    requires ValidOptions(co) && ValidOptions(so)
    ensures Inv(Start(), co, so)
  {}

  ghost predicate LegalRun(s: State, actions: seq<Action>, co: Options, so: Options)
    requires ValidOptions(co) && ValidOptions(so)
    decreases |actions|
  {
    actions != [] ==> Enabled(s, actions[0], co, so) && LegalRun(Step(s, actions[0], co, so), actions[1..], co, so)
  }

  ghost function Run(s: State, actions: seq<Action>, co: Options, so: Options): State
    requires ValidOptions(co) && ValidOptions(so) && LegalRun(s, actions, co, so)
    decreases |actions|
  {
    if actions == [] then s else Run(Step(s, actions[0], co, so), actions[1..], co, so)
  }

  lemma {:induction false} RunKeeps(s: State, actions: seq<Action>, co: Options, so: Options)
    requires ValidOptions(co) && ValidOptions(so) && Compatible(co, so) && Inv(s, co, so) && LegalRun(s, actions, co, so)
    ensures Inv(Run(s, actions, co, so), co, so)
    decreases |actions|
  {
    if actions == [] {
    } else {
      StepKeeps(s, actions[0], co, so);
      RunKeeps(Step(s, actions[0], co, so), actions[1..], co, so);
    }
  }

  /** Honest peers whose socket types fit never refuse each other's commands; the client is
      ready only after the server, each then has the other's properties, and the server lets
      in only whom the authenticator, if there is one, answered 200 for. */
  lemma EveryHandshakeAgrees(start: State, actions: seq<Action>, co: Options, so: Options)
    requires ValidOptions(co) && ValidOptions(so) && Compatible(co, so)
    requires start == Start() && LegalRun(start, actions, co, so)
    ensures var s := Run(start, actions, co, so);
            && s.refused.None?
            && (s.client.ClientReady? ==> s.server.ServerReady? && s.clientHas == Properties(so))
            && (s.server.ServerReady? ==> s.serverHas == Properties(co))
            && (s.server.ServerReady? && !s.zap.NoZap? ==>
                  s.zap == Answer(OK()) && s.asked == Some((co.username, co.password)))
            && (s.client.ErrorReceived? ==> s.zap.Answer? && s.zap.code != OK())
  {
    StartHolds(co, so);
    RunKeeps(start, actions, co, so);
  }

  ghost predicate Over(s: State) {
    (s.client.ClientReady? && s.server.ServerReady?) || (s.client.ErrorReceived? && s.server.ErrorSent?)
  }

  /** What can happen next; an authenticator that was asked answers at some time. */
  ghost function NextAction(s: State): Action {
    if s.toClient != [] then ClientReceives
    else if s.toServer != [] then ServerReceives(NoZap)
    else if s.client.SendingHello? || s.client.SendingInitiate? then ClientSends
    else if s.server.WaitingForZapReply? then ZapAnswers(OK())
    else ServerSends
  }

  /** The handshake never comes to a halt before it is over... */
  lemma NeverStuck(s: State, co: Options, so: Options)
    requires ValidOptions(co) && ValidOptions(so) && Inv(s, co, so) && !Over(s)
    ensures Enabled(s, NextAction(s), co, so)
  {}

  ghost function Ahead(s: State): nat {
    (match s.client
     case SendingHello => 6 case WaitingForWelcome => 5 case SendingInitiate => 3 case WaitingForReady => 2
     case ClientReady => 0 case ErrorReceived => 0)
    + (match s.server
       case WaitingForHello => 8 case WaitingForZapReply => 7 case SendingWelcome => 6 case WaitingForInitiate => 5
       case SendingReady => 4 case ServerReady => 3 case SendingError => 4 case ErrorSent => 3)
  }

  /** ...and every step brings it nearer to the end. */
  lemma StepsLeadToTheEnd(s: State, a: Action, co: Options, so: Options)
    requires ValidOptions(co) && ValidOptions(so) && Compatible(co, so)
    requires Inv(s, co, so) && Enabled(s, a, co, so)
    ensures Ahead(Step(s, a, co, so)) < Ahead(s)
  {
    StepKeeps(s, a, co, so);
    CommandsDiffer();
  }

  /** Peers whose types do not fit: the server refuses the client's properties. */
  lemma MisfitsAreRefused(co: Options, so: Options)
    requires ValidOptions(co) && !CheckSocketType(so.socket, SocketTypeString(co.socket))
    ensures ServerProcess(WaitingForInitiate, ProduceInitiate(co), so.socket, NoZap).1 == Refused(Einval)
  {
    PropertiesExchanged(co, so.socket);
    CommandsDiffer();
    assert ProduceInitiate(co)[9..] == AddProperties(Properties(co));
  }

  class PlainClient {
    const options: Options
    var state: ClientState
    var properties: map<seq<Byte>, seq<Byte>>   // what the server told

    constructor (o: Options)
      ensures options == o && state == SendingHello && properties == map[]
    {
      options, state, properties := o, SendingHello, map[];
    }

    method NextHandshakeCommand() returns (rc: Rc, m: seq<Byte>)
      requires ValidOptions(options)
      modifies this`state
      ensures (state, rc, m) == ClientNext(old(state), options)
    {
      rc, m := Again, [];
      match state
      case SendingHello =>
        rc, m := Handled, ProduceHello(options.username, options.password);
        state := WaitingForWelcome;
      case SendingInitiate =>
        rc, m := Handled, ProduceInitiate(options);
        state := WaitingForReady;
      case _ =>
    }

    method ProcessHandshakeCommand(s: seq<Byte>) returns (rc: Rc)
      modifies this`state, this`properties
      ensures var (c, r, ps) := ClientProcess(old(state), s, options.socket);
              state == c && rc == r && properties == Inserted(old(properties), ps)
    {
      CommandsDiffer();
      if WELCOME() <= s {
        rc := ProcessWelcome(s);
      } else if READY() <= s {
        rc := ProcessReady(s);
      } else if ERROR() <= s {
        rc := ProcessError(s);
      } else {
        rc := Refused(Eproto);
      }
    }

    method ProcessWelcome(s: seq<Byte>) returns (rc: Rc)
      modifies this`state
      ensures (state, rc) == if old(state) != WaitingForWelcome || |s| != 8 then (old(state), Refused(Eproto))
                             else (SendingInitiate, Handled)
    {
      if state != WaitingForWelcome {
        return Refused(Eproto);
      }
      if |s| != 8 {
        return Refused(Eproto);
      }
      state := SendingInitiate;
      return Handled;
    }

    method ProcessReady(s: seq<Byte>) returns (rc: Rc)
      requires READY() <= s && !(WELCOME() <= s)
      modifies this`state, this`properties
      ensures var (c, r, ps) := ClientProcess(old(state), s, options.socket);
              state == c && rc == r && properties == Inserted(old(properties), ps)
    {
      if state != WaitingForReady {
        return Refused(Eproto);
      }
      var v;
      properties, v := Parse(s[6..], options.socket, properties);
      if v == Fine {
        state := ClientReady;
        return Handled;
      }
      return Refused(v);
    }

    method ProcessError(s: seq<Byte>) returns (rc: Rc)
      modifies this`state
      ensures (state, rc) ==
              if (old(state) != WaitingForWelcome && old(state) != WaitingForReady) || |s| < 7 || s[6] > |s| - 7
              then (old(state), Refused(Eproto)) else (ErrorReceived, Handled)
    {
      if state != WaitingForWelcome && state != WaitingForReady {
        return Refused(Eproto);
      }
      if |s| < 7 {
        return Refused(Eproto);
      }
      if s[6] > |s| - 7 {
        return Refused(Eproto);
      }
      state := ErrorReceived;
      return Handled;
    }
  }

  class PlainServer {
    const options: Options
    var state: ServerState
    var statusCode: seq<Byte>
    var properties: map<seq<Byte>, seq<Byte>>   // what the client told

    ghost predicate Valid()
      reads this
    {
      ValidOptions(options) && (state.SendingError? ==> |statusCode| == 3)
    }

    constructor (o: Options)
      requires ValidOptions(o)
      ensures Valid() && options == o && state == WaitingForHello && properties == map[]
    {
      options, state, statusCode, properties := o, WaitingForHello, [], map[];
    }

    method NextHandshakeCommand() returns (rc: Rc, m: seq<Byte>)
      requires Valid()
      modifies this`state
      ensures Valid() && (state, rc, m) == ServerNext(old(state), options, statusCode)
    {
      rc, m := Again, [];
      match state
      case SendingWelcome =>
        rc, m := Handled, WELCOME();
        state := WaitingForInitiate;
      case SendingReady =>
        rc, m := Handled, ProduceReady(options);
        state := ServerReady;
      case SendingError =>
        rc, m := Handled, ProduceError(statusCode);
        state := ErrorSent;
      case _ =>
    }

    /** `zap` is what the authenticator, if there is one, has to say by then. */
    method ProcessHandshakeCommand(s: seq<Byte>, zap: Zap) returns (rc: Rc)
      requires Valid() && WellFormed(zap)
      modifies this
      ensures var (v, r, ps) := ServerProcess(old(state), s, options.socket, zap);
              Valid() && state == v && rc == r && properties == Inserted(old(properties), ps)
      ensures statusCode == if old(state) == WaitingForHello && rc == Handled && zap.Answer? then zap.code else old(statusCode)
    {
      match state
      case WaitingForHello =>
        var hello := ProcessHello(s);
        if hello.None? {
          return Refused(Eproto);
        }
        Authenticate(zap);
        rc := Handled;
      case WaitingForInitiate => rc := ProcessInitiate(s);
      case _ => rc := Refused(Eproto);
    }

    method Authenticate(zap: Zap)
      requires Valid() && WellFormed(zap)
      modifies this`state, this`statusCode
      ensures Valid() && state == Admit(zap) && statusCode == if zap.Answer? then zap.code else old(statusCode)
    {
      match zap
      case NoZap => state := SendingWelcome;
      case Pending => state := WaitingForZapReply;
      case Answer(code) =>
        statusCode := code;
        state := if code == OK() then SendingWelcome else SendingError;
    }

    method ZapMsgAvailable(code: seq<Byte>) returns (ok: bool)
      requires Valid() && |code| == 3
      modifies this`state, this`statusCode
      ensures Valid() && (ok <==> old(state) == WaitingForZapReply)
      ensures state == if ok then Admit(Answer(code)) else old(state)
      ensures statusCode == if ok then code else old(statusCode)
    {
      if state != WaitingForZapReply {
        return false;
      }
      Authenticate(Answer(code));
      return true;
    }

    method ProcessInitiate(s: seq<Byte>) returns (rc: Rc)
      requires Valid() && state == WaitingForInitiate
      modifies this`state, this`properties
      ensures var (v, r, ps) := ServerInitiate(s, options.socket);
              Valid() && state == v && rc == r && properties == Inserted(old(properties), ps)
    {
      CommandsDiffer();
      if !(INITIATE() <= s) {
        return Refused(Eproto);
      }
      var v;
      properties, v := Parse(s[9..], options.socket, properties);
      if v == Fine {
        state := SendingReady;
        return Handled;
      }
      return Refused(v);
    }
  }
}

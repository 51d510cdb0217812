/** The properties peers exchange: how they are written, and what a parser accepts. */
module Metadata {
  import opened Basics
  import opened Framing

  datatype Property = Property(name: seq<Byte>, value: seq<Byte>)

  datatype Verdict = Fine | Einval | Eproto

  datatype SocketType =
    | PAIR | PUB | SUB | REQ | REP | DEALER | ROUTER | PULL | PUSH | XPUB | XSUB | STREAM
    | SERVER | CLIENT | RADIO | DISH | GATHER | SCATTER | DGRAM

  function SocketTypeString(t: SocketType): string {
    match t
    case PAIR => "PAIR" case PUB => "PUB" case SUB => "SUB" case REQ => "REQ" case REP => "REP"
    case DEALER => "DEALER" case ROUTER => "ROUTER" case PULL => "PULL" case PUSH => "PUSH"
    case XPUB => "XPUB" case XSUB => "XSUB" case STREAM => "STREAM" case SERVER => "SERVER"
    case CLIENT => "CLIENT" case RADIO => "RADIO" case DISH => "DISH" case GATHER => "GATHER"
    case SCATTER => "SCATTER" case DGRAM => "DGRAM"
  }

  /** Does a socket of this type talk to one of that type? */
  predicate CheckSocketType(t: SocketType, peer: string) {
    match t
    case REQ => peer == "REP" || peer == "ROUTER"
    case REP => peer == "REQ" || peer == "DEALER"
    case DEALER => peer == "REP" || peer == "DEALER" || peer == "ROUTER"
    case ROUTER => peer == "REQ" || peer == "DEALER" || peer == "ROUTER"
    case PUSH => peer == "PULL"
    case PULL => peer == "PUSH"
    case PUB => peer == "SUB" || peer == "XSUB"
    case SUB => peer == "PUB" || peer == "XPUB"
    case XPUB => peer == "SUB" || peer == "XSUB"
    case XSUB => peer == "PUB" || peer == "XPUB"
    case PAIR => peer == "PAIR"
    case SERVER => peer == "CLIENT"
    case CLIENT => peer == "SERVER"
    case RADIO => peer == "DISH"
    case DISH => peer == "RADIO"
    case GATHER => peer == "SCATTER"
    case SCATTER => peer == "GATHER"
    case DGRAM => peer == "DGRAM"
    case STREAM => false
  }

  // ----------------------------------------------------- the table from its patterns

  datatype Pattern =
    | RequestReply | PublishSubscribe | Pipeline | ClientServer | RadioDish | ScatterGather | Pairs | Datagrams | Raw

  datatype Side = Front | Back

  /** What a type of socket is for, and on which side: it asks, publishes, pushes, and so on, or it answers,
      subscribes, pulls. */
  function Role(t: SocketType): (Pattern, Side) {
    match t
    case REQ => (RequestReply, Front) case DEALER => (RequestReply, Front)
    case REP => (RequestReply, Back) case ROUTER => (RequestReply, Back)
    case PUB => (PublishSubscribe, Front) case XPUB => (PublishSubscribe, Front)
    case SUB => (PublishSubscribe, Back) case XSUB => (PublishSubscribe, Back)
    case PUSH => (Pipeline, Front) case PULL => (Pipeline, Back)
    case CLIENT => (ClientServer, Front) case SERVER => (ClientServer, Back)
    case RADIO => (RadioDish, Front) case DISH => (RadioDish, Back)
    case SCATTER => (ScatterGather, Front) case GATHER => (ScatterGather, Back)
    case PAIR => (Pairs, Front)
    case DGRAM => (Datagrams, Front)
    case STREAM => (Raw, Front)
  }

  /** The types that talk to others like themselves. */
  predicate TalksToItsKind(t: SocketType) {
    t == DEALER || t == ROUTER || t == PAIR || t == DGRAM
  }

  /** Two sockets talk if they serve the same pattern from opposite sides, or are of one type that talks
      to its own kind. */
  predicate Partners(a: SocketType, b: SocketType) {
    if a == b then TalksToItsKind(a) else Role(a).0 == Role(b).0 && Role(a).1 != Role(b).1
  }

  /** The table says exactly that, for every pair of types. */
  lemma TableFollowsPatterns(a: SocketType, b: SocketType)
    ensures CheckSocketType(a, SocketTypeString(b)) <==> Partners(a, b)
  {
    match Role(a).0
    case RequestReply => RequestsFollow(a, b);
    case PublishSubscribe => PublishersFollow(a, b);
    case _ => PairedFollow(a, b);
  }

  lemma RequestsFollow(a: SocketType, b: SocketType)
    requires Role(a).0 == RequestReply
    ensures CheckSocketType(a, SocketTypeString(b)) <==> Partners(a, b)
  {}

  lemma PublishersFollow(a: SocketType, b: SocketType)
    requires Role(a).0 == PublishSubscribe
    ensures CheckSocketType(a, SocketTypeString(b)) <==> Partners(a, b)
  {}

  lemma PairedFollow(a: SocketType, b: SocketType)
    requires Role(a).0 != RequestReply && Role(a).0 != PublishSubscribe
    ensures CheckSocketType(a, SocketTypeString(b)) <==> Partners(a, b)
  {}

  /** Both peers agree on whether they fit, though each checks for itself. */
  lemma FittingIsMutual(a: SocketType, b: SocketType)
    ensures CheckSocketType(a, SocketTypeString(b)) <==> CheckSocketType(b, SocketTypeString(a))
  {
    TableFollowsPatterns(a, b);
    TableFollowsPatterns(b, a);
  }

  /** A string fits only if it is the name of a type that does; one that names no type fits nothing. */
  lemma OnlyNamesFit(t: SocketType, s: string)
    ensures CheckSocketType(t, s) <==> exists b: SocketType :: s == SocketTypeString(b) && Partners(t, b)
  {
    if CheckSocketType(t, s) {
      var b := NamedType(t, s);
      TableFollowsPatterns(t, b);
    } else {
      forall b: SocketType | s == SocketTypeString(b) ensures !Partners(t, b) {
        TableFollowsPatterns(t, b);
      }
    }
  }

  lemma NamedType(t: SocketType, s: string) returns (b: SocketType)
    requires CheckSocketType(t, s)
    ensures s == SocketTypeString(b)
  {
    b := match s
         case "PAIR" => PAIR case "PUB" => PUB case "SUB" => SUB case "REQ" => REQ case "REP" => REP
         case "DEALER" => DEALER case "ROUTER" => ROUTER case "PULL" => PULL case "PUSH" => PUSH
         case "XPUB" => XPUB case "XSUB" => XSUB case "SERVER" => SERVER case "CLIENT" => CLIENT
         case "RADIO" => RADIO case "DISH" => DISH case "GATHER" => GATHER case "SCATTER" => SCATTER
         case _ => DGRAM;
  }

  predicate IsText(s: string) {
    forall i :: 0 <= i < |s| ==> s[i] as int < 256
  }

  function Bytes(s: string): (b: seq<Byte>)
    requires IsText(s)
  {
    seq(|s|, i requires 0 <= i < |s| => s[i] as int)
  }

  function Text(b: seq<Byte>): string {
    seq(|b|, i requires 0 <= i < |b| => b[i] as char)
  }

  lemma TextOfBytes(s: string)
    requires IsText(s)
    ensures Text(Bytes(s)) == s
  {}

  predicate Encodable(p: Property) {
    |p.name| <= 255 && |p.value| < Power(4)
  }

  function AddProperty(p: Property): seq<Byte>
    requires Encodable(p)
  {
    [|p.name|] + p.name + Put(|p.value|, 4) + p.value
  }

  function AddProperties(ps: seq<Property>): seq<Byte>
    requires forall p :: p in ps ==> Encodable(p)
  {
    if ps == [] then [] else AddProperty(ps[0]) + AddProperties(ps[1..])
  }

  /** A property, byte by byte: the length of the name, the name, four bytes for the length of the value
      with the most significant first, and the value. */
  lemma PropertyBytes(p: Property)
    requires Encodable(p)
    ensures var s, n, v := AddProperty(p), |p.name|, |p.value|;
      && |s| == 5 + n + v && v < 0x1_0000_0000
      && s[0] == n && s[1..1 + n] == p.name
      && s[1 + n] == v / 0x100_0000 && s[2 + n] == v / 0x1_0000 % 256
      && s[3 + n] == v / 0x100 % 256 && s[4 + n] == v % 256
      && s[5 + n..] == p.value
  {
    Powers();
    PutFour(|p.value|);
    var s := AddProperty(p);
    assert s == ([|p.name|] + p.name + Put(|p.value|, 4)) + p.value;
    assert s[1 + |p.name|..5 + |p.name|] == Put(|p.value|, 4);
  }

  /** Does a property make the parser give up? */
  predicate Fits(t: SocketType, p: Property) {
    Text(p.name) == "Socket-Type" ==> CheckSocketType(t, Text(p.value))
  }

  datatype Scan = Found(p: Property, rest: seq<Byte>) | Stopped(left: nat)

  /** Reads one property; stops with the number of bytes left when there is not a whole one. */
  function ScanProperty(s: seq<Byte>): Scan
    requires |s| > 1
  {
    var n := s[0];
    if |s| - 1 < n then Stopped(|s| - 1)
    else
      var u := s[1 + n..];
      if |u| < 4 then Stopped(|u|)
      else
        var v := Get(u[..4]);
        if |u| - 4 < v then Stopped(|u| - 4)
        else Found(Property(s[1..1 + n], u[4..4 + v]), u[4 + v..])
  }

  function ParseMetadata(s: seq<Byte>, t: SocketType): (seq<Property>, Verdict)
    decreases |s|
  {
    if |s| <= 1 then ([], if |s| > 0 then Eproto else Fine)
    else
      var scan := ScanProperty(s);
      if scan.Stopped? then ([], if scan.left > 0 then Eproto else Fine)
      else if !Fits(t, scan.p) then ([], Einval)
      else
        var (ps, v) := ParseMetadata(scan.rest, t);
        ([scan.p] + ps, v)
  }

  lemma ScanAdded(p: Property, rest: seq<Byte>)
    requires Encodable(p)
    ensures |AddProperty(p) + rest| > 1 && ScanProperty(AddProperty(p) + rest) == Found(p, rest)
  {
    var s := AddProperty(p) + rest;
    assert s[0] == |p.name|;
    assert s[1..1 + |p.name|] == p.name;
    var u := s[1 + |p.name|..];
    assert u == Put(|p.value|, 4) + p.value + rest;
    assert u[..4] == Put(|p.value|, 4);
    GetPut(|p.value|, 4);
    assert u[4..4 + |p.value|] == p.value;
    assert u[4 + |p.value|..] == rest;
  }

  lemma {:induction false} PutGet(s: seq<Byte>)
    ensures Get(s) < Power(|s|) && Put(Get(s), |s|) == s
    decreases |s|
  {
    if s == [] {
    } else {
      PutGet(s[..|s| - 1]);
      assert s == s[..|s| - 1] + [s[|s| - 1]];
      var g := Get(s[..|s| - 1]);
      assert Get(s) / 256 == g && Get(s) % 256 == s[|s| - 1];
    }
  }

  lemma AddScanned(s: seq<Byte>)
    requires |s| > 1 && ScanProperty(s).Found?
    ensures Encodable(ScanProperty(s).p) && s == AddProperty(ScanProperty(s).p) + ScanProperty(s).rest
  {
    var n := s[0];
    var u := s[1 + n..];
    PutGet(u[..4]);
    assert s == [n] + s[1..1 + n] + u;
    assert u == u[..4] + u[4..4 + Get(u[..4])] + u[4 + Get(u[..4])..];
  }

  /** What may follow the last whole property without being noticed: nothing, or a property
      cut off exactly after its name or exactly after the length of a value that is not empty. */
  predicate CutOff(s: seq<Byte>) {
    || s == []
    || (|s| > 1 && |s| == 1 + (s[0] as int))
    || (|s| > 1 && |s| == 5 + (s[0] as int) && Get(s[1 + s[0] as int..]) > 0)
  }

  lemma StoppedIsCutOff(s: seq<Byte>)
    requires |s| > 1
    ensures ScanProperty(s) == Stopped(0) <==> CutOff(s)
  {
    var n: int := s[0];
    if |s| == 5 + n {
      var u := s[1 + n..];
      assert u[..4] == u;
    }
  }

  /** Everything written is recovered; a cut-off property after it goes unnoticed. */
  lemma {:induction false} ParsesWhatWasAdded(ps: seq<Property>, tail: seq<Byte>, t: SocketType)
    requires forall p :: p in ps ==> Encodable(p) && Fits(t, p)
    requires CutOff(tail)
    ensures ParseMetadata(AddProperties(ps) + tail, t) == (ps, Fine)
    decreases |ps|
  {
    if ps == [] {
      assert AddProperties(ps) + tail == tail;
      if |tail| > 1 {
        StoppedIsCutOff(tail);
      }
    } else {
      assert ps[0] in ps;
      var rest := AddProperties(ps[1..]) + tail;
      Regroup(AddProperty(ps[0]), AddProperties(ps[1..]), tail);
      ScanAdded(ps[0], rest);
      ParsesWhatWasAdded(ps[1..], tail, t);
      assert [ps[0]] + ps[1..] == ps;
    }
  }

  /** And nothing else is accepted. */
  lemma {:induction false} AcceptsNothingElse(s: seq<Byte>, t: SocketType) returns (tail: seq<Byte>)
    requires ParseMetadata(s, t).1.Fine?
    ensures forall p :: p in ParseMetadata(s, t).0 ==> Encodable(p) && Fits(t, p)
    ensures CutOff(tail) && s == AddProperties(ParseMetadata(s, t).0) + tail
    decreases |s|
  {
    if |s| <= 1 {
      tail := s;
    } else {
      var scan := ScanProperty(s);
      if scan.Stopped? {
        StoppedIsCutOff(s);
        tail := s;
        assert [] + s == s;
      } else {
        AddScanned(s);
        tail := AcceptsNothingElse(scan.rest, t);
        var ps := ParseMetadata(scan.rest, t).0;
        assert ([scan.p] + ps)[1..] == ps;
        Regroup(AddProperty(scan.p), AddProperties(ps), tail);
      }
    }
  }

  /** Properties that fit, and then one that does not: that is refused, whatever follows. */
  lemma {:induction false} RefusesMisfit(ps: seq<Property>, p: Property, rest: seq<Byte>, t: SocketType)
    requires forall q :: q in ps ==> Encodable(q) && Fits(t, q)
    requires Encodable(p) && !Fits(t, p)
    ensures ParseMetadata(AddProperties(ps) + (AddProperty(p) + rest), t) == (ps, Einval)
    decreases |ps|
  {
    var tail := AddProperty(p) + rest;
    if ps == [] {
      assert AddProperties(ps) + tail == tail;
      ScanAdded(p, rest);
    } else {
      assert ps[0] in ps;
      Regroup(AddProperty(ps[0]), AddProperties(ps[1..]), tail);
      ScanAdded(ps[0], AddProperties(ps[1..]) + tail);
      RefusesMisfit(ps[1..], p, rest, t);
      assert [ps[0]] + ps[1..] == ps;
    }
  }

  /** And nothing else is refused in that way. */
  lemma {:induction false} RefusedForMisfit(s: seq<Byte>, t: SocketType) returns (p: Property, rest: seq<Byte>)
    requires ParseMetadata(s, t).1.Einval?
    ensures forall q :: q in ParseMetadata(s, t).0 ==> Encodable(q) && Fits(t, q)
    ensures Encodable(p) && !Fits(t, p) && s == AddProperties(ParseMetadata(s, t).0) + (AddProperty(p) + rest)
    decreases |s|
  {
    var scan := ScanProperty(s);
    AddScanned(s);
    if !Fits(t, scan.p) {
      p, rest := scan.p, scan.rest;
      assert [] + s == s;
    } else {
      p, rest := RefusedForMisfit(scan.rest, t);
      var ps := ParseMetadata(scan.rest, t).0;
      assert ([scan.p] + ps)[1..] == ps;
      Regroup(AddProperty(scan.p), AddProperties(ps), AddProperty(p) + rest);
    }
  }

  /** The parser, with a cursor, filling a dictionary in which the first value of a name stays. */
  method Parse(s: seq<Byte>, t: SocketType, dict: map<seq<Byte>, seq<Byte>>)
    returns (properties: map<seq<Byte>, seq<Byte>>, v: Verdict)
    ensures v == ParseMetadata(s, t).1 && properties == Inserted(dict, ParseMetadata(s, t).0)
  {
    var pos, left := 0, |s|;
    properties := dict;
    ghost var done: seq<Property> := [];
    ParsedNone(s, t);
    while left > 1
      invariant pos <= |s| && left == |s| - pos
      invariant Parsed(s, t, s[pos..], done)
      invariant properties == Inserted(dict, done)
    {
      var scan := ScanAt(s, pos);
      ParsedNext(s, t, s[pos..], done);
      if scan.Stopped? {
        return properties, if scan.left > 0 then Eproto else Fine;
      }
      var p := scan.p;
      if Text(p.name) == "Socket-Type" && !CheckSocketType(t, Text(p.value)) {
        return properties, Einval;
      }
      properties := if p.name in properties then properties else properties[p.name := p.value];
      InsertedNext(dict, done, p);
      done := done + [p];
      left := |scan.rest|;
      pos := |s| - left;
      assert s[pos..] == scan.rest;
    }
    ParsedEnd(s, t, s[pos..], done);
    v := if left > 0 then Eproto else Fine;
  }

  /** These properties are parsed, and this is left of the input. */
  ghost predicate Parsed(s: seq<Byte>, t: SocketType, rest: seq<Byte>, done: seq<Property>) {
    ParseMetadata(s, t) == (done + ParseMetadata(rest, t).0, ParseMetadata(rest, t).1)
  }

  lemma ParsedNone(s: seq<Byte>, t: SocketType)
    ensures s[0..] == s && Parsed(s, t, s[0..], [])
  {
    assert s[0..] == s;
    assert [] + ParseMetadata(s, t).0 == ParseMetadata(s, t).0;
  }

  lemma ParsedEnd(s: seq<Byte>, t: SocketType, rest: seq<Byte>, done: seq<Property>)
    requires |rest| <= 1 && Parsed(s, t, rest, done)
    ensures ParseMetadata(s, t) == (done, if |rest| > 0 then Eproto else Fine)
  {
    assert done + [] == done;
  }

  lemma ParsedNext(s: seq<Byte>, t: SocketType, rest: seq<Byte>, done: seq<Property>)
    requires |rest| > 1 && Parsed(s, t, rest, done)
    ensures var scan := ScanProperty(rest);
            if scan.Stopped? then ParseMetadata(s, t) == (done, if scan.left > 0 then Eproto else Fine)
            else if !Fits(t, scan.p) then ParseMetadata(s, t) == (done, Einval)
            else Parsed(s, t, scan.rest, done + [scan.p])
  {
    assert done + [] == done;
    var scan := ScanProperty(rest);
    if scan.Found? {
      Regroup(done, [scan.p], ParseMetadata(scan.rest, t).0);
    }
  }

  /** Moves the cursor over one property. */
  method ScanAt(s: seq<Byte>, pos: nat) returns (scan: Scan)
    requires pos + 1 < |s|
    ensures scan == ScanProperty(s[pos..])
    ensures scan.Found? ==> |scan.rest| < |s| - pos && scan.rest == s[|s| - |scan.rest|..]
  {
    var at, left := pos, |s| - pos;
    var n: int := s[at];
    at, left := at + 1, left - 1;
    if left < n {
      return Stopped(left);
    }
    var name := s[at..at + n];
    at, left := at + n, left - n;
    assert s[pos..][1 + n..] == s[at..];
    if left < 4 {
      return Stopped(left);
    }
    var size := Get(s[at..at + 4]);
    assert s[at..][..4] == s[at..at + 4];
    at, left := at + 4, left - 4;
    if left < size {
      return Stopped(left);
    }
    return Found(Property(name, s[at..at + size]), s[at + size..]);
  }

  function Inserted(dict: map<seq<Byte>, seq<Byte>>, ps: seq<Property>): map<seq<Byte>, seq<Byte>> {
    if ps == [] then dict
    else
      var d, p := Inserted(dict, ps[..|ps| - 1]), ps[|ps| - 1];
      if p.name in d then d else d[p.name := p.value]
  }

  lemma InsertedNext(dict: map<seq<Byte>, seq<Byte>>, ps: seq<Property>, p: Property)
    ensures var d := Inserted(dict, ps);
            Inserted(dict, ps + [p]) == if p.name in d then d else d[p.name := p.value]
  {
    assert (ps + [p])[..|ps|] == ps;
  }

  /** The first property with this name. */
  predicate FirstNamed(ps: seq<Property>, i: nat, name: seq<Byte>) {
    i < |ps| && ps[i].name == name && forall j :: 0 <= j < i ==> ps[j].name != name
  }

  /** A dictionary keeps the first value it is given for a name. */
  lemma {:induction false} FirstValueStays(dict: map<seq<Byte>, seq<Byte>>, ps: seq<Property>, name: seq<Byte>)
    ensures var d := Inserted(dict, ps);
      && (name in d <==> name in dict || exists i :: 0 <= i < |ps| && ps[i].name == name)
      && (name in dict ==> d[name] == dict[name])
      && (name !in dict ==> forall i: nat :: FirstNamed(ps, i, name) ==> d[name] == ps[i].value)
    decreases |ps|
  {
    if ps == [] {
    } else {
      var init, p := ps[..|ps| - 1], ps[|ps| - 1];
      FirstValueStays(dict, init, name);
      assert ps == init + [p];
      if name in Inserted(dict, init) && name !in dict {
        var k :| 0 <= k < |init| && init[k].name == name;
        assert ps[k].name == name;
        forall i: nat | FirstNamed(ps, i, name) ensures Inserted(dict, ps)[name] == ps[i].value {
          assert i <= k;
          assert FirstNamed(init, i, name);
        }
      }
    }
  }
}

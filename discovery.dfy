/**
 * `discoverDevices` (wiz.go): one `getSystemConfig` broadcast, then a read
 * loop that keeps every reply carrying `result.mac` until the read deadline.
 *
 * The socket is an oracle: `setup` says whether the broadcast socket opened
 * and the query went out, and `events` lists what successive reads return.
 * Reading past the end of `events` means the deadline has passed.
 */
module Discovery {
  import opened Results
  import Json

  /** What a read hands to json.Unmarshal: bytes that are not JSON, or a JSON document. */
  datatype Datagram = Garbled | Document(doc: Json.Value)

  datatype ReadEvent =
    | Packet(body: Datagram, sender: string)  // sender: addr.IP.String()
    | Timeout
    | ReadFailed(cause: string)

  datatype Setup = Ready | DialFailed(cause: string) | BroadcastFailed(cause: string)

  /** `Device`. */
  datatype Device = Device(ip: string, mac: string, name: string)

  datatype DiscoveryError = SocketError(cause: string) | BroadcastError(cause: string) | ReadError(cause: string)

  /** A run ends with the devices, with an error, or with Go's slice-bounds panic on a short MAC. */
  datatype Outcome = Found(devices: seq<Device>) | Failed(error: DiscoveryError) | Panicked(mac: string)

  const BroadcastAddress: string := "255.255.255.255:38899"

  /** `{"method":"getSystemConfig","params":{}}` */
  const Query: Json.Value :=
    Json.Object(map["method" := Json.Str("getSystemConfig"), "params" := Json.Object(map[])])

  /** The string at `result.mac` of a reply that unmarshals into a map, if there is one. */
  function ReplyMac(body: Datagram): Option<string>
  {
    if body.Document? && body.doc.Object? && "result" in body.doc.fields
       && body.doc.fields["result"].Object? && "mac" in body.doc.fields["result"].fields
       && body.doc.fields["result"].fields["mac"].Str?
    then Some(body.doc.fields["result"].fields["mac"].s)
    else None
  }

  /** A reply whose MAC is too short for `mac[len(mac)-4:]`. */
  predicate ShortMac(e: ReadEvent)
  {
    e.Packet? && ReplyMac(e.body).Some? && |ReplyMac(e.body).value| < 4
  }

  /** The Device recorded for a reply: "WiZ-" followed by the MAC's last four characters. */
  function DeviceFor(ip: string, mac: string): (d: Device)
    requires |mac| >= 4
    ensures d.ip == ip && d.mac == mac
    ensures |d.name| == 8 && d.name[..4] == "WiZ-" && d.name[4..] == mac[|mac| - 4..]
  {
    Device(ip, mac, "WiZ-" + mac[|mac| - 4..])
  }

  /** The devices a packet contributes: one for a valid reply, none for anything else. */
  function DevicesFrom(e: ReadEvent): seq<Device>
    requires e.Packet? && !ShortMac(e)
  {
    match ReplyMac(e.body)
    case None => []
    case Some(mac) => [DeviceFor(e.sender, mac)]
  }

  predicate Readable(ps: seq<ReadEvent>)
  {
    forall i :: 0 <= i < |ps| ==> ps[i].Packet? && !ShortMac(ps[i])
  }

  /** Devices accumulated from a run of packets: in arrival order, duplicates kept. */
  function DevicesOf(ps: seq<ReadEvent>): (ds: seq<Device>)
    requires Readable(ps)
    ensures |ds| <= |ps|
  {
    if ps == [] then [] else DevicesOf(ps[..|ps| - 1]) + DevicesFrom(ps[|ps| - 1])
  }

  /** Where the read loop stops: the first read that is not a packet, or a packet with a short MAC. */
  function CutIndex(events: seq<ReadEvent>, i: nat := 0): (k: nat)
    requires i <= |events|
    ensures i <= k <= |events|
    ensures Readable(events[i..k])
    ensures k < |events| ==> !events[k].Packet? || ShortMac(events[k])
    decreases |events| - i
  {
    if i == |events| then i
    else if !events[i].Packet? || ShortMac(events[i]) then i
    else
      var k := CutIndex(events, i + 1);
      assert events[i..k] == [events[i]] + events[i + 1..k];
      k
  }

  /** How a run with a successful broadcast ends, read off the event at the cut. */
  function ListenOutcome(events: seq<ReadEvent>): (o: Outcome)
    ensures o.Found? ==> |o.devices| <= |events|
    ensures o.Failed? ==> o.error.ReadError? && ReadFailed(o.error.cause) in events
    ensures o.Panicked? ==> |o.mac| < 4
    ensures (forall i :: 0 <= i < |events| ==> !events[i].ReadFailed? && !ShortMac(events[i])) ==> o.Found?
  {
    var k := CutIndex(events);
    assert events[..k] == events[0..k];
    if k == |events| || events[k].Timeout? then Found(DevicesOf(events[..k]))
    else if events[k].ReadFailed? then Failed(ReadError(events[k].cause))
    else Panicked(ReplyMac(events[k].body).value)
  }

  /**
   * `discoverDevices`: socket and broadcast failures return before listening;
   * then each read either ends the loop (timeout: the devices so far; other
   * error: an error and no devices) or is a packet whose valid reply is appended.
   */
  method DiscoverDevices(setup: Setup, events: seq<ReadEvent>)
    returns (outcome: Outcome, ghost broadcast: Option<(string, Json.Value)>, ghost readCount: nat)
    ensures setup.DialFailed? ==> outcome == Failed(SocketError(setup.cause)) && broadcast == None && readCount == 0
    ensures setup.BroadcastFailed? ==> outcome == Failed(BroadcastError(setup.cause)) && broadcast == None && readCount == 0
    ensures setup.Ready? ==> broadcast == Some((BroadcastAddress, Query)) && outcome == ListenOutcome(events)
    ensures setup.Ready? ==> readCount == if CutIndex(events) < |events| then CutIndex(events) + 1 else |events| + 1
  {
    broadcast, readCount := None, 0;
    match setup {
      case DialFailed(cause) => return Failed(SocketError(cause)), broadcast, readCount;
      case BroadcastFailed(cause) => return Failed(BroadcastError(cause)), broadcast, readCount;
      case Ready =>
    }
    broadcast := Some((BroadcastAddress, Query));
    var devices: seq<Device> := [];
    var i := 0;
    while true
      invariant i <= |events| && readCount == i
      invariant Readable(events[..i])
      invariant devices == DevicesOf(events[..i])
      decreases |events| - i
    {
      readCount := readCount + 1;
      if i == |events| {
        CutAt(events, i);
        break;  // the read deadline passes
      }
      match events[i] {
        case Timeout =>
          CutAt(events, i);
          break;
        case ReadFailed(cause) =>
          CutAt(events, i);
          return Failed(ReadError(cause)), broadcast, readCount;
        case Packet(body, sender) =>
          if !ShortMac(events[i]) {
            ReadableStep(events, i);
          }
          match ReplyMac(body) {
            case None =>
            case Some(mac) =>
              if |mac| < 4 {
                CutAt(events, i);
                return Panicked(mac), broadcast, readCount;
              }
              devices := devices + [DeviceFor(sender, mac)];
          }
      }
      i := i + 1;
    }
    outcome := Found(devices);
  }

  /** The loop stops at the first read that ends it, whatever came before. */
  lemma {:induction false} CutAt(events: seq<ReadEvent>, k: nat, i: nat := 0)
    requires i <= k <= |events| && Readable(events[..k])
    requires k < |events| ==> !events[k].Packet? || ShortMac(events[k])
    ensures CutIndex(events, i) == k
    decreases k - i
  {
    if i < k {
      assert events[..k][i] == events[i];
      CutAt(events, k, i + 1);
    }
  }

  /** One more complete packet extends the run read so far, adding its own devices. */
  lemma ReadableStep(events: seq<ReadEvent>, i: nat)
    requires i < |events| && Readable(events[..i])
    requires events[i].Packet? && !ShortMac(events[i])
    ensures Readable(events[..i + 1])
    ensures DevicesOf(events[..i + 1]) == DevicesOf(events[..i]) + DevicesFrom(events[i])
  {
    assert events[..i + 1][..i] == events[..i];
  }

  /** Collected devices keep arrival order across any split of the packets. */
  lemma {:induction false} DevicesOfAppend(a: seq<ReadEvent>, b: seq<ReadEvent>)
    requires Readable(a) && Readable(b)
    ensures Readable(a + b) && DevicesOf(a + b) == DevicesOf(a) + DevicesOf(b)
    decreases |b|
  {
    forall i | 0 <= i < |a + b|
      ensures (a + b)[i].Packet? && !ShortMac((a + b)[i])
    {
      if i < |a| {
        assert (a + b)[i] == a[i];
      } else {
        assert (a + b)[i] == b[i - |a|];
      }
    }
    if b == [] {
      assert a + b == a;
    } else {
      var b' := b[..|b| - 1];
      assert (a + b)[..|a + b| - 1] == a + b';
      assert (a + b)[|a + b| - 1] == b[|b| - 1];
      DevicesOfAppend(a, b');
    }
  }

  /** No deduplication: a reply received twice yields its device twice, one after the other. */
  lemma RepeatedReplyKept(ps: seq<ReadEvent>, e: ReadEvent)
    requires Readable(ps) && e.Packet? && !ShortMac(e) && ReplyMac(e.body).Some?
    ensures Readable(ps + [e, e])
    ensures var d := DeviceFor(e.sender, ReplyMac(e.body).value);
      DevicesOf(ps + [e, e]) == DevicesOf(ps) + [d, d]
  {
    var d := DeviceFor(e.sender, ReplyMac(e.body).value);
    assert DevicesFrom(e) == [d];
    assert [e, e][..1] == [e];
    assert [e][..0] == [];
    assert DevicesOf([e]) == [d];
    assert DevicesOf([e, e]) == [d, d];
    DevicesOfAppend(ps, [e, e]);
  }

  /** Every collected device is named "WiZ-" plus the last four characters of its MAC. */
  lemma {:induction false} DeviceNames(ps: seq<ReadEvent>)
    requires Readable(ps)
    ensures forall d :: d in DevicesOf(ps) ==>
      |d.mac| >= 4 && |d.name| == 8 && d.name[..4] == "WiZ-" && d.name[4..] == d.mac[|d.mac| - 4..]
  {
    if ps != [] {
      DeviceNames(ps[..|ps| - 1]);
    }
  }

  /** With no responders the scan ends at the deadline with an empty list, not an error. */
  lemma NoResponders(events: seq<ReadEvent>)
    requires events == [] || events == [Timeout]
    ensures ListenOutcome(events) == Found([])
  {
  }

  /** A read error after valid replies still discards them. */
  lemma ReadErrorDiscards(ps: seq<ReadEvent>, cause: string)
    requires Readable(ps)
    ensures ListenOutcome(ps + [ReadFailed(cause)]) == Failed(ReadError(cause))
  {
    var events := ps + [ReadFailed(cause)];
    CutAfterReadable(ps, [ReadFailed(cause)]);
  }

  /** A readable prefix is never cut. */
  lemma {:induction false} CutAfterReadable(ps: seq<ReadEvent>, rest: seq<ReadEvent>, i: nat := 0)
    requires Readable(ps) && i <= |ps|
    requires rest != [] && !rest[0].Packet?
    ensures CutIndex(ps + rest, i) == |ps|
    decreases |ps| - i
  {
    if i < |ps| {
      assert (ps + rest)[i] == ps[i];
      CutAfterReadable(ps, rest, i + 1);
    }
  }
}

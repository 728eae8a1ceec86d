/**
 The event stream from driver to client: the driver cuts records at arbitrary buffer ends
 and keeps one fragment, the client puts them together again.
 */
module ReadStream {
  import opened Net

  const HEADER := 5
  const LIMIT32 := 0x1_0000_0000

  datatype RawRecord = Record(kind: Byte, payload: seq<Byte>)

  type Record = r: RawRecord | |r.payload| < LIMIT32 witness Record(0, [])

  // ---- the wire format ---------------------------------------------------------------------------

  function Le32(n: nat): seq<Byte>
    requires n < LIMIT32
  {
    [n % 256, n / 256 % 256, n / 65536 % 256, n / 16777216]
  }

  function ReadU32(s: seq<Byte>): nat
    requires |s| >= 4
  {
    s[0] as int + s[1] as int * 256 + s[2] as int * 65536 + s[3] as int * 16777216
  }

  function Encode(r: Record): seq<Byte> {
    [r.kind] + Le32(|r.payload|) + r.payload
  }

  function EncodeAll(rs: seq<Record>): seq<Byte> {
    if rs == [] then [] else Encode(rs[0]) + EncodeAll(rs[1..])
  }

  /** The bytes of a record: its kind, the length of its payload in little-endian order, the payload. */
  lemma WireFormat(r: Record)
    ensures var e := Encode(r);
            && |e| == 5 + |r.payload| && e[0] == r.kind && e[5..] == r.payload
            && |r.payload| == e[1] as int + 0x100 * e[2] as int + 0x1_0000 * e[3] as int + 0x100_0000 * e[4] as int
  {
    SizeRoundTrip(|r.payload|);
    var e := Encode(r);
    assert e[1..5] == Le32(|r.payload|);
    assert e[1] == e[1..5][0] && e[2] == e[1..5][1] && e[3] == e[1..5][2] && e[4] == e[1..5][3];
  }

  lemma NextRecord(rs: seq<Record>)
    ensures rs != [] ==> EncodeAll(rs) == Encode(rs[0]) + EncodeAll(rs[1..])
  {
  }

  lemma SizeRoundTrip(n: nat)
    requires n < LIMIT32
    ensures ReadU32(Le32(n)) == n
  {
    var a, b, c := n / 256, n / 65536, n / 16777216;
    assert b == a / 256 && c == b / 256;
  }

  /** The size of the record that starts the buffer, when its header is there. */
  function RecordSize(s: seq<Byte>): Option<nat> {
    if |s| < HEADER then None else Some(HEADER + ReadU32(s[1..5]))
  }

  predicate Complete(s: seq<Byte>) {
    RecordSize(s).Some? && RecordSize(s).value <= |s|
  }

  function FirstRecord(s: seq<Byte>): RawRecord
    requires Complete(s)
  {
    Record(s[0], s[HEADER..RecordSize(s).value])
  }

  lemma ReadU32Bound(s: seq<Byte>)
    requires |s| >= 4
    ensures ReadU32(s) < LIMIT32
  {
  }

  /** A buffer that starts with an encoded record yields that record and the rest. */
  lemma DecodeEncoded(r: Record, rest: seq<Byte>)
    ensures var s := Encode(r) + rest;
            && Complete(s) && RecordSize(s) == Some(|Encode(r)|)
            && FirstRecord(s) == r && s[|Encode(r)|..] == rest
  {
    var s := Encode(r) + rest;
    assert s[1..5] == Le32(|r.payload|);
    SizeRoundTrip(|r.payload|);
  }

  /** A complete first record encodes back to the bytes it came from. */
  lemma EncodeDecoded(s: seq<Byte>)
    requires Complete(s)
    ensures |FirstRecord(s).payload| < LIMIT32
    ensures var n := RecordSize(s).value; Encode(FirstRecord(s)) == s[..n] && s == Encode(FirstRecord(s)) + s[n..]
  {
    ReadU32Bound(s[1..5]);
    Le32OfBytes(s[1..5]);
    var n := RecordSize(s).value;
    assert Encode(FirstRecord(s)) == [s[0]] + s[1..5] + s[5..n];
    assert [s[0]] + s[1..5] + s[5..n] == s[..n];
  }

  lemma Le32OfBytes(s: seq<Byte>)
    requires |s| == 4
    ensures ReadU32(s) < LIMIT32 && Le32(ReadU32(s)) == s
  {
    var n := ReadU32(s);
    assert n / 256 == s[1] as int + s[2] as int * 256 + s[3] as int * 65536;
    assert n / 65536 == s[2] as int + s[3] as int * 256;
    assert n / 16777216 == s[3] as int;
  }

  lemma {:induction false} EncodeAppend(a: seq<Record>, b: seq<Record>)
    ensures EncodeAll(a + b) == EncodeAll(a) + EncodeAll(b)
  {
    if a == [] {
      assert a + b == b;
    } else {
      assert (a + b)[1..] == a[1..] + b;
      EncodeAppend(a[1..], b);
    }
  }

  lemma EncodeSnoc(a: seq<Record>, r: Record)
    ensures EncodeAll(a + [r]) == EncodeAll(a) + Encode(r)
  {
    EncodeAppend(a, [r]);
    assert [r][1..] == [] && EncodeAll([r]) == Encode(r) + [];
  }

  // ---- the driver's end ---------------------------------------------------------------------------------

  class ArrayHolder {
    var saved: Option<seq<Byte>>

    constructor ()
      ensures saved == None
    {
      saved := None;
    }

    method Save(data: seq<Byte>)
      modifies this
      ensures saved == Some(data)
    {
      saved := Some(data);
    }

    method Load() returns (r: Option<seq<Byte>>)
      modifies this
      ensures r == old(saved) && saved == None
    {
      r := saved;
      saved := None;
    }

    method Clear()
      modifies this
      ensures saved == None
    {
      saved := None;
    }
  }

  function Fragment(saved: Option<seq<Byte>>): seq<Byte> {
    if saved.Some? then saved.value else []
  }

  /** The request buffer takes what fits. */
  function Fits(free: nat, data: seq<Byte>): nat {
    if |data| < free then |data| else free
  }

  class EventStream {
    const holder: ArrayHolder
    var queue: seq<Record>
    ghost var pushed: seq<Record>
    ghost var emitted: seq<Byte>

    /** What a reader has still to get: the saved fragment, then the queued records. */
    ghost function Rest(): seq<Byte>
      reads this, holder
    {
      Fragment(holder.saved) + EncodeAll(queue)
    }

    /** Conservation: every pushed byte has been emitted or is still to come, in order. */
    ghost predicate Valid()
      reads this, holder
    {
      && EncodeAll(pushed) == emitted + Rest()
      && (holder.saved.Some? ==> holder.saved.value != [])
    }

    constructor ()
      ensures Valid() && fresh(holder) && queue == [] && pushed == [] && emitted == [] && holder.saved == None
    {
      holder := new ArrayHolder();
      queue, pushed, emitted := [], [], [];
    }

    method Push(r: Record)
      requires Valid()
      modifies this
      ensures Valid() && queue == old(queue) + [r] && pushed == old(pushed) + [r] && emitted == old(emitted)
    {
      EncodeSnoc(queue, r);
      EncodeSnoc(pushed, r);
      Regroup(emitted, Fragment(holder.saved), EncodeAll(queue), Encode(r));
      queue, pushed := queue + [r], pushed + [r];
    }

    /** Writes one record's bytes, keeping what does not fit; a fragment is never written over. */
    method WriteRecord(free: nat, r: Record) returns (out: seq<Byte>)
      requires holder.saved == None
      modifies holder
      ensures |out| <= free && Encode(r) == out + Fragment(holder.saved)
      ensures holder.saved.Some? ==> holder.saved.value != [] && |out| == free
    {
      var bytes := Encode(r);
      var count := Fits(free, bytes);
      out := bytes[..count];
      if count < |bytes| {
        assert holder.saved.None?;
        holder.Save(bytes[count..]);
      }
      assert bytes == bytes[..count] + bytes[count..];
    }

    /**
     One read: the saved fragment or else the next record, then further records while there
     is room for more than a header. `visible` is how many queued records the read gets to see.
     */
    method Read(size: nat, visible: nat) returns (out: seq<Byte>)
      requires Valid()
      modifies this, holder
      ensures Valid() && pushed == old(pushed) && emitted == old(emitted) + out
      ensures |out| <= size && old(Rest()) == out + Rest()
      ensures holder.saved.Some? ==> |out| == size
      ensures size > 0 && (old(holder.saved).Some? || (visible > 0 && old(queue) != [])) ==> out != []
    {
      hide EncodeAll;
      NextRecord(queue);
      var left := visible;
      var data := holder.Load();
      ghost var rest := old(Rest());
      if data.Some? {
        var count := Fits(size, data.value);
        out := data.value[..count];
        if count < |data.value| {
          holder.Save(data.value[count..]);
        }
        assert data.value == out + Fragment(holder.saved);
        Regroup3(out, Fragment(holder.saved), EncodeAll(queue));
      } else {
        if left == 0 || queue == [] {
          assert [] + EncodeAll(queue) == EncodeAll(queue);
          assert emitted + [] == emitted && [] + Rest() == Rest();
          return [];
        }
        var r := queue[0];
        queue, left := queue[1..], left - 1;
        out := WriteRecord(size, r);
        Regroup3(out, Fragment(holder.saved), EncodeAll(queue));
        assert rest == Encode(r) + EncodeAll(queue);
      }
      while size - |out| > 5 && left > 0 && queue != []
        invariant |out| <= size && rest == out + Rest() && pushed == old(pushed) && emitted == old(emitted)
        invariant holder.saved.Some? ==> holder.saved.value != [] && |out| == size
        invariant size > 0 ==> out != []
        decreases left
      {
        var r := queue[0];
        ghost var before := queue;
        NextRecord(queue);
        queue, left := queue[1..], left - 1;
        var more := WriteRecord(size - |out|, r);
        Regroup4(out, more, Fragment(holder.saved), EncodeAll(queue));
        assert [] + EncodeAll(before) == EncodeAll(before);
        out := out + more;
      }
      Regroup3(emitted, out, Rest());
      emitted := emitted + out;
    }
  }

  // ---- the client's end ---------------------------------------------------------------------------------

  /** The complete records at the front of a buffer, in order. */
  function Records(s: seq<Byte>): seq<Record>
    decreases |s|
  {
    if !Complete(s) then [] else
      EncodeDecoded(s);
      [FirstRecord(s)] + Records(s[RecordSize(s).value..])
  }

  function Leftover(s: seq<Byte>): seq<Byte>
    decreases |s|
  {
    if !Complete(s) then s else Leftover(s[RecordSize(s).value..])
  }

  /** Parsing splits a buffer without losing a byte, and what is left is no whole record. */
  lemma {:induction false} ParseConserves(s: seq<Byte>)
    ensures s == EncodeAll(Records(s)) + Leftover(s) && !Complete(Leftover(s))
    decreases |s|
  {
    if Complete(s) {
      EncodeDecoded(s);
      var t := s[RecordSize(s).value..];
      ParseConserves(t);
      assert Records(s)[1..] == Records(t);
      Regroup3(Encode(FirstRecord(s)), EncodeAll(Records(t)), Leftover(t));
    } else {
      assert [] + s == s;
    }
  }

  /** The largest record the pipe to a remote client takes. */
  const MAX_NOTE := 64 * 1024 * 1024

  /**
   What the pipe is found to be like when a record is dispatched: connected before, whether
   sending works, connected after.
   */
  datatype Link = Link(connected: bool, sends: bool, stillConnected: bool)

  datatype Receiver = Remote | Local | Nobody

  datatype Delivery = Delivery(record: Record, receiver: Receiver)

  /** The remote client was sent this record. */
  predicate Sent(link: Link, size: nat) {
    link.connected && size <= MAX_NOTE && link.sends
  }

  /**
   A record sent to the remote client is that client's alone. The local handlers get the records
   for which there is no client, or for which sending failed and ended the session; the rest are
   dropped, since a record meant for a client that stays connected is nobody else's.
   */
  ghost predicate Routed(receiver: Receiver, link: Link, size: nat) {
    && (receiver.Remote? <==> Sent(link, size))
    && (receiver.Local? <==> !link.connected || (!Sent(link, size) && !link.stillConnected))
  }

  /** Every record went where the state of the pipe at its turn sends it. */
  ghost predicate Obeys(ds: seq<Delivery>, link: nat -> Link) {
    forall k :: 0 <= k < |ds| ==> Routed(ds[k].receiver, link(k), |Encode(ds[k].record)|)
  }

  /** Who receives a dispatched record, in every state of the pipe. */
  lemma ReceiverExactly(ds: seq<Delivery>, link: nat -> Link, k: nat)
    requires Obeys(ds, link) && k < |ds|
    ensures var size := 5 + |ds[k].record.payload|;
            var sent := link(k).connected && size <= 67108864 && link(k).sends;
            && (ds[k].receiver == Remote <==> sent)
            && (ds[k].receiver == Local <==> !link(k).connected || (!sent && !link(k).stillConnected))
            && (ds[k].receiver == Nobody <==> link(k).connected && !sent && link(k).stillConnected)
  {
    assert |Encode(ds[k].record)| == 5 + |ds[k].record.payload|;
  }

  /**
   A record is lost exactly when a client is and stays connected and the record is too large
   or its send fails. When a failed send ends the session, as the pipe promises, exactly the
   records too large for it are lost that way.
   */
  lemma LostExactly(ds: seq<Delivery>, link: nat -> Link, k: nat)
    requires Obeys(ds, link) && k < |ds|
    ensures ds[k].receiver == Nobody <==>
              link(k).connected && link(k).stillConnected && (|Encode(ds[k].record)| > MAX_NOTE || !link(k).sends)
    ensures (link(k).connected && !link(k).sends ==> !link(k).stillConnected) ==>
              (ds[k].receiver == Nobody <==>
                 link(k).connected && link(k).stillConnected && |Encode(ds[k].record)| > MAX_NOTE)
  {
  }

  function RecordsOf(ds: seq<Delivery>): seq<Record> {
    seq(|ds|, i requires 0 <= i < |ds| => ds[i].record)
  }

  /** Behind the first complete record the parse goes on with the rest of the buffer. */
  lemma ParseStep(buffer: seq<Byte>, offset: nat)
    requires offset <= |buffer| && Complete(buffer[offset..])
    ensures var s := buffer[offset..];
            var n := RecordSize(s).value;
            && n >= HEADER && offset + n <= |buffer| && |FirstRecord(s).payload| < LIMIT32
            && buffer[offset + n..] == s[n..] && |Encode(FirstRecord(s))| == n
            && Records(s) == [FirstRecord(s)] + Records(buffer[offset + n..])
            && Leftover(s) == Leftover(buffer[offset + n..])
  {
    EncodeDecoded(buffer[offset..]);
  }

  lemma NoRecords(s: seq<Byte>)
    requires !Complete(s)
    ensures Records(s) == [] && Leftover(s) == s
  {
  }

  lemma ObeysNext(ds: seq<Delivery>, link: nat -> Link, d: Delivery)
    requires Obeys(ds, link) && Routed(d.receiver, link(|ds|), |Encode(d.record)|)
    ensures Obeys(ds + [d], link)
  {
  }

  /** The send decision of one record. */
  method Route(pipe: Link, size: nat) returns (receiver: Receiver)
    ensures Routed(receiver, pipe, size)
  {
    if pipe.connected {
      var sent := false;
      if size <= MAX_NOTE {
        sent := pipe.sends;
      }
      if sent || pipe.stillConnected {
        return if sent then Remote else Nobody;
      }
    }
    return Local;
  }

  lemma RecordsOfNext(ds: seq<Delivery>, d: Delivery, rest: seq<Record>)
    ensures RecordsOf(ds + [d]) + rest == RecordsOf(ds) + ([d.record] + rest)
  {
    assert RecordsOf(ds + [d]) == RecordsOf(ds) + [d.record];
  }

  class Client {
    var buffer: seq<Byte>
    var delivered: seq<Delivery>
    /** The state of the pipe at the turn of each record. */
    const link: nat -> Link
    ghost var received: seq<Byte>

    /** All that was received has been dispatched as records, except an incomplete last one. */
    ghost predicate Valid()
      reads this
    {
      received == EncodeAll(RecordsOf(delivered)) + buffer && !Complete(buffer) && Obeys(delivered, link)
    }

    constructor (link: nat -> Link)
      ensures Valid() && buffer == [] && delivered == [] && received == [] && this.link == link
    {
      this.link := link;
      buffer, delivered, received := [], [], [];
    }

    /** Dispatches every complete record and returns how many bytes they took. */
    method Dispatch() returns (offset: nat)
      requires Obeys(delivered, link)
      modifies this`delivered
      ensures Obeys(delivered, link)
      ensures offset <= |buffer| && buffer[offset..] == Leftover(buffer)
      ensures RecordsOf(delivered) == RecordsOf(old(delivered)) + Records(buffer)
      ensures old(delivered) <= delivered
    {
      hide Obeys, Records, Leftover, Encode, RecordsOf, FirstRecord, Routed, RecordSize;
      offset := 0;
      assert buffer[0..] == buffer;
      ghost var all := RecordsOf(delivered) + Records(buffer);
      while Complete(buffer[offset..])
        invariant offset <= |buffer| && Leftover(buffer[offset..]) == Leftover(buffer)
        invariant RecordsOf(delivered) + Records(buffer[offset..]) == all
        invariant old(delivered) <= delivered && Obeys(delivered, link)
        decreases |buffer| - offset
      {
        var s := buffer[offset..];
        var n := RecordSize(s).value;
        ParseStep(buffer, offset);
        var receiver := Route(link(|delivered|), n);
        var d := Delivery(FirstRecord(s), receiver);
        ObeysNext(delivered, link, d);
        RecordsOfNext(delivered, d, Records(s[n..]));
        delivered := delivered + [d];
        offset := offset + n;
      }
      NoRecords(buffer[offset..]);
      assert RecordsOf(delivered) + [] == RecordsOf(delivered);
    }

    /** Appends a chunk, dispatches, and drops what was consumed. */
    method Receive(chunk: seq<Byte>)
      requires Valid()
      modifies this
      ensures Valid() && received == old(received) + chunk
      ensures old(delivered) <= delivered
    {
      ghost var before := EncodeAll(RecordsOf(delivered));
      Regroup3(before, buffer, chunk);
      received := received + chunk;
      buffer := buffer + chunk;
      ghost var full := buffer;
      ParseConserves(buffer);
      var consumed := Dispatch();
      EncodeAppend(RecordsOf(old(delivered)), Records(full));
      Regroup3(before, EncodeAll(Records(full)), Leftover(full));
      buffer := buffer[consumed..];
    }
  }

  // ---- both ends together -----------------------------------------------------------------------------------

  /** Records are self-delimiting: equal streams that start with whole records start with the same record. */
  lemma FirstAgree(r: Record, x: seq<Byte>, s: Record, y: seq<Byte>)
    requires Encode(r) + x == Encode(s) + y
    ensures r == s && x == y
  {
    DecodeEncoded(r, x);
    DecodeEncoded(s, y);
  }

  lemma EncodeNonempty(rs: seq<Record>)
    ensures EncodeAll(rs) == [] <==> rs == []
  {
  }

  /** Delivered records followed by anything that completes the pushed stream are its first records. */
  lemma {:induction false} DeliveredIsPrefix(delivered: seq<Record>, pushed: seq<Record>, rest: seq<Byte>)
    requires EncodeAll(pushed) == EncodeAll(delivered) + rest
    ensures delivered <= pushed && EncodeAll(pushed[|delivered|..]) == rest
  {
    if delivered == [] {
      assert [] + rest == rest;
    } else {
      EncodeNonempty(delivered);
      EncodeNonempty(pushed);
      var d, p := EncodeAll(delivered[1..]), EncodeAll(pushed[1..]);
      Regroup3(Encode(delivered[0]), d, rest);
      FirstAgree(delivered[0], d + rest, pushed[0], p);
      DeliveredIsPrefix(delivered[1..], pushed[1..], rest);
      assert delivered == [delivered[0]] + delivered[1..] && pushed == [pushed[0]] + pushed[1..];
      assert pushed[1..][|delivered[1..]|..] == pushed[|delivered|..];
    }
  }

  /** An incomplete buffer at the front of encoded records is a proper prefix of the first of them. */
  lemma BufferIsProperPrefix(buffer: seq<Byte>, rest: seq<Byte>, todo: seq<Record>)
    requires EncodeAll(todo) == buffer + rest && !Complete(buffer)
    ensures if todo == [] then buffer == [] && rest == [] else buffer < Encode(todo[0])
  {
    if todo != [] {
      var e := Encode(todo[0]);
      if |buffer| >= |e| {
        assert buffer == e + buffer[|e|..] by {
          assert (buffer + rest)[..|e|] == e;
        }
        DecodeEncoded(todo[0], buffer[|e|..]);
        assert false;
      }
      assert buffer == (buffer + rest)[..|buffer|] == e[..|buffer|];
    }
  }

  lemma EncodeLonger(rs: seq<Record>)
    requires rs != []
    ensures |EncodeAll(rs)| >= |Encode(rs[0])|
  {
  }

  lemma NothingLeft(buffer: seq<Byte>, rest: seq<Byte>, todo: seq<Record>)
    requires EncodeAll(todo) == buffer + rest && !Complete(buffer) && rest == []
    ensures todo == []
  {
    BufferIsProperPrefix(buffer, rest, todo);
    if todo != [] { EncodeLonger(todo); }
  }

  /**
   A buffer without a whole record, before the rest of the stream: a proper prefix of the next
   record, if there is one.
   */
  ghost predicate Between(buffer: seq<Byte>, rest: seq<Byte>, todo: seq<Record>) {
    && EncodeAll(todo) == buffer + rest
    && (if todo == [] then buffer == [] && rest == [] else buffer < Encode(todo[0]))
    && (rest == [] ==> todo == [])
  }

  lemma Remainder(buffer: seq<Byte>, rest: seq<Byte>, todo: seq<Record>)
    requires EncodeAll(todo) == buffer + rest && !Complete(buffer)
    ensures Between(buffer, rest, todo)
  {
    BufferIsProperPrefix(buffer, rest, todo);
    if rest == [] { NothingLeft(buffer, rest, todo); }
  }

  /**
   Whatever the read sizes: what the client has dispatched are the first records pushed, in
   order; its buffer is a proper prefix of the next one; nothing is lost or invented.
   */
  lemma StreamRecovered(delivered: seq<Record>, buffer: seq<Byte>, pushed: seq<Record>, rest: seq<Byte>)
    requires EncodeAll(pushed) == (EncodeAll(delivered) + buffer) + rest && !Complete(buffer)
    ensures delivered <= pushed && Between(buffer, rest, pushed[|delivered|..])
  {
    Regroup3(EncodeAll(delivered), buffer, rest);
    DeliveredIsPrefix(delivered, pushed, buffer + rest);
    Remainder(buffer, rest, pushed[|delivered|..]);
  }

  /** The bytes of one record, behind whole records only, are that record and no other. */
  lemma OneRecord(before: seq<Delivery>, after: seq<Delivery>, buffer: seq<Byte>, r: Record)
    requires before <= after && !Complete(buffer)
    requires EncodeAll(RecordsOf(before)) + Encode(r) == EncodeAll(RecordsOf(after)) + buffer
    ensures |after| == |before| + 1 && after[|before|].record == r && buffer == []
  {
    var more := after[|before|..];
    assert after == before + more;
    assert RecordsOf(after) == RecordsOf(before) + RecordsOf(more);
    EncodeAppend(RecordsOf(before), RecordsOf(more));
    Regroup3(EncodeAll(RecordsOf(before)), EncodeAll(RecordsOf(more)), buffer);
    assert EncodeAll([r]) == Encode(r) + [] == Encode(r);
    assert (EncodeAll(RecordsOf(before)) + Encode(r))[|EncodeAll(RecordsOf(before))|..] == Encode(r);
    assert EncodeAll(RecordsOf(more)) + buffer == Encode(r);
    assert (EncodeAll(RecordsOf(more)) + buffer) + [] == Encode(r);
    StreamRecovered(RecordsOf(more), buffer, [r], []);
    assert |[r][|more|..]| == 1 - |more|;
    assert RecordsOf(more)[0] == more[0].record;
  }

  /** A whole record received at a record boundary goes where the state of the pipe sends it. */
  method ReceiveOne(client: Client, r: Record)
    requires client.Valid() && client.buffer == []
    modifies client
    ensures client.Valid() && client.buffer == []
    ensures |client.delivered| == |old(client.delivered)| + 1 && old(client.delivered) <= client.delivered
    ensures var d := client.delivered[|old(client.delivered)|];
            d.record == r && Routed(d.receiver, client.link(|old(client.delivered)|), |Encode(r)|)
  {
    client.Receive(Encode(r));
    OneRecord(old(client.delivered), client.delivered, client.buffer, r);
  }

  /** A record one header too large for the pipe is lost on a client whose pipe works and stays connected. */
  method OversizedLost() returns (client: Client, r: Record)
    ensures |r.payload| == MAX_NOTE && client.link(0) == Link(true, true, true)
    ensures client.Valid() && client.delivered == [Delivery(r, Nobody)]
  {
    client := new Client(_ => Link(true, true, true));
    r := Record(0, seq(MAX_NOTE, _ => 0));
    ReceiveOne(client, r);
  }

  /** One turn of the reader loop: a driver read handed to the client. */
  method Pump(stream: EventStream, client: Client, size: nat, visible: nat)
    requires stream.Valid() && client.Valid() && stream.emitted == client.received
    modifies stream, stream.holder, client
    ensures stream.Valid() && client.Valid() && stream.emitted == client.received && stream.pushed == old(stream.pushed)
    ensures RecordsOf(client.delivered) <= stream.pushed
    ensures old(client.delivered) <= client.delivered
    ensures Between(client.buffer, stream.Rest(), stream.pushed[|client.delivered|..])
  {
    var chunk := stream.Read(size, visible);
    client.Receive(chunk);
    StreamRecovered(RecordsOf(client.delivered), client.buffer, stream.pushed, stream.Rest());
  }

  lemma Regroup(a: seq<Byte>, b: seq<Byte>, c: seq<Byte>, d: seq<Byte>)
    ensures (a + (b + c)) + d == a + (b + (c + d))
  {
  }

  lemma Regroup3(a: seq<Byte>, b: seq<Byte>, c: seq<Byte>)
    ensures (a + b) + c == a + (b + c)
  {
  }

  lemma Regroup4(a: seq<Byte>, b: seq<Byte>, c: seq<Byte>, d: seq<Byte>)
    ensures a + ((b + c) + d) == (a + b) + (c + d)
  {
  }
}

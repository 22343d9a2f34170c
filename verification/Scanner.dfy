/** The receiving end of the link.  The server (`socket.c`) and the plugins
    (`superhidplugin.c`, `testsocketclient.c`) run the same resynchronising
    scanner over a buffer that is compacted and refilled. */
module Scanner {
  import opened Wire

  datatype Scanned = Scanned(records: seq<Record>, rest: seq<Byte>)

  /** The reference reading of a byte stream: one pass from left to right over
      the whole of it. */
  function Scan(s: seq<Byte>): (r: Scanned)
    ensures |r.rest| < RECORD_SIZE
  {
    if |s| < RECORD_SIZE then Scanned([], s)
    else if HasMagic(s) then
      var tail := Scan(s[RECORD_SIZE..]);
      Scanned([Decode(s[..RECORD_SIZE])] + tail.records, tail.rest)
    else
      Scan(s[1..])
  }

  /** Reading a stream that arrives in two parts: what the first part leaves
      unread is put in front of the second. */
  lemma {:induction false} ScanAppend(a: seq<Byte>, b: seq<Byte>)
    ensures Scan(a + b).records == Scan(a).records + Scan(Scan(a).rest + b).records
    ensures Scan(a + b).rest == Scan(Scan(a).rest + b).rest
    decreases |a|
  {
    if |a| >= RECORD_SIZE {
      if HasMagic(a) {
        assert (a + b)[RECORD_SIZE..] == a[RECORD_SIZE..] + b;
        assert (a + b)[..RECORD_SIZE] == a[..RECORD_SIZE];
        ScanAppend(a[RECORD_SIZE..], b);
      } else {
        assert (a + b)[1..] == a[1..] + b;
        ScanAppend(a[1..], b);
      }
    }
  }

  function Concat(chunks: seq<seq<Byte>>): seq<Byte> {
    if chunks == [] then [] else chunks[0] + Concat(chunks[1..])
  }

  /** What a receiver does with one chunk, as a function: `kept` is what the
      buffer held before, the result holds what was handed on and what stays. */
  function Feed(state: Scanned, chunk: seq<Byte>): Scanned {
    var s := Scan(state.rest + chunk);
    Scanned(state.records + s.records, s.rest)
  }

  function FeedAll(state: Scanned, chunks: seq<seq<Byte>>): Scanned
    decreases |chunks|
  {
    if chunks == [] then state else FeedAll(Feed(state, chunks[0]), chunks[1..])
  }

  lemma FeedExtends(received: seq<Byte>, chunk: seq<Byte>)
    ensures Feed(Scan(received), chunk) == Scan(received + chunk)
  {
    ScanAppend(received, chunk);
  }

  /** Chunking independence: however the stream is split, the records handed on
      and the bytes kept are those of one pass over the whole stream. */
  lemma {:induction false} ChunkingIndependence(received: seq<Byte>, chunks: seq<seq<Byte>>)
    ensures FeedAll(Scan(received), chunks) == Scan(received + Concat(chunks))
    decreases |chunks|
  {
    if chunks == [] {
      assert received + Concat(chunks) == received;
    } else {
      FeedExtends(received, chunks[0]);
      ChunkingIndependence(received + chunks[0], chunks[1..]);
      assert received + chunks[0] + Concat(chunks[1..]) == received + Concat(chunks);
    }
  }

  // ----- Resynchronisation ------------------------------------------------

  /** No position of `s` starts the four magic bytes. */
  ghost predicate MagicFree(s: seq<Byte>) {
    forall i | 0 <= i <= |s| - 4 :: !HasMagic(s[i..])
  }

  /** Junk in front of a record or of the end of the stream is passed over byte
      by byte: no magic word can straddle the junk and the record behind it. */
  lemma {:induction false} JunkIsSkipped(junk: seq<Byte>, r: Record, rest: seq<Byte>)
    requires MagicFree(junk)
    ensures Scan(junk + Encode(r) + rest).records == [r] + Scan(rest).records
    ensures Scan(junk + Encode(r) + rest).rest == Scan(rest).rest
    decreases |junk|
  {
    var s := junk + Encode(r) + rest;
    if junk == [] {
      assert s == Encode(r) + rest;
      DecodeEncode(r, rest);
    } else {
      StreamStartsNoRecord(junk, r, rest);
      assert s[1..] == junk[1..] + Encode(r) + rest;
      forall i | 0 <= i <= |junk[1..]| - 4 ensures !HasMagic(junk[1..][i..]) {
        assert junk[1..][i..] == junk[i + 1..];
      }
      JunkIsSkipped(junk[1..], r, rest);
    }
  }

  lemma StreamStartsNoRecord(junk: seq<Byte>, r: Record, rest: seq<Byte>)
    requires MagicFree(junk) && junk != []
    ensures !HasMagic(junk + Encode(r) + rest)
  {
    var s := junk + Encode(r) + rest;
    if |junk| >= 4 {
      assert forall i | 0 <= i < 4 :: s[i] == junk[0..][i];
      assert !HasMagic(junk[0..]);
    } else {
      DecodeEncode(r, rest);
      assert s[|junk|..] == Encode(r) + rest;
      MagicHasNoBorder(s, |junk|);
    }
  }

  lemma {:induction false} TrailingJunkIsSkipped(junk: seq<Byte>)
    requires MagicFree(junk)
    ensures Scan(junk).records == []
    decreases |junk|
  {
    if |junk| >= RECORD_SIZE {
      assert junk[0..] == junk;
      forall i | 0 <= i <= |junk[1..]| - 4 ensures !HasMagic(junk[1..][i..]) {
        assert junk[1..][i..] == junk[i + 1..];
      }
      TrailingJunkIsSkipped(junk[1..]);
    }
  }

  /** A stream of records with junk in front of each: `junks[i]` precedes
      `rs[i]`, and `last` ends the stream. */
  function Interleave(junks: seq<seq<Byte>>, rs: seq<Record>, last: seq<Byte>): seq<Byte>
    requires |junks| == |rs|
  {
    if rs == [] then last
    else junks[0] + Encode(rs[0]) + Interleave(junks[1..], rs[1..], last)
  }

  /** Resynchronisation: the scanner finds exactly the records of the stream,
      none torn, none invented out of junk. */
  lemma {:induction false} Resynchronises(junks: seq<seq<Byte>>, rs: seq<Record>, last: seq<Byte>)
    requires |junks| == |rs|
    requires MagicFree(last) && forall j | 0 <= j < |junks| :: MagicFree(junks[j])
    ensures Scan(Interleave(junks, rs, last)).records == rs
    decreases |rs|
  {
    if rs == [] {
      TrailingJunkIsSkipped(last);
    } else {
      JunkIsSkipped(junks[0], rs[0], Interleave(junks[1..], rs[1..], last));
      Resynchronises(junks[1..], rs[1..], last);
    }
  }

  /** Without that assumption the result fails: junk holding the magic word is
      taken for the start of a record and swallows the real one behind it. */
  lemma JunkWithMagicSwallowsARecord()
    ensures exists junk: seq<Byte>, r: Record ::
              !MagicFree(junk) && Scan(Interleave([junk], [r], [])).records != [r]
  {
    var junk: seq<Byte> := [0xE9, 0xBC, 0x9C, 0xAD];
    var r := Record(1, 2, 3);
    var s := Interleave([junk], [r], []);
    assert [r][1..] == [] && [junk][1..] == [];
    assert s == junk + Encode(r) + Interleave([], [], []);
    assert HasMagic(s) && HasMagic(junk[0..]);
    assert Scan(s).records[0] == Decode(s[..RECORD_SIZE]);
    assert s[..RECORD_SIZE][4..6] == [0xE9, 0xBC];
    assert Decode(s[..RECORD_SIZE]).itype == 0xBCE9;
  }

  // ----- A stream of whole records ---------------------------------------

  lemma {:induction false} ScanEncoded(rs: seq<Record>, tail: seq<Byte>)
    requires |tail| < RECORD_SIZE
    ensures Scan(EncodeAll(rs) + tail) == Scanned(rs, tail)
    decreases |rs|
  {
    if rs == [] {
      assert EncodeAll(rs) + tail == tail;
    } else {
      var s := EncodeAll(rs[1..]) + tail;
      assert EncodeAll(rs) + tail == Encode(rs[0]) + s;
      DecodeEncode(rs[0], s);
      ScanEncoded(rs[1..], tail);
    }
  }

  lemma CutEncoded(rs: seq<Record>, n: nat)
    requires n <= |EncodeAll(rs)|
    ensures n / RECORD_SIZE <= |rs|
    ensures EncodeAll(rs)[..n] == EncodeAll(rs[..n / RECORD_SIZE]) + EncodeAll(rs)[n / RECORD_SIZE * RECORD_SIZE..n]
  {
    var k := n / RECORD_SIZE;
    assert rs == rs[..k] + rs[k..];
    EncodeAllAppend(rs[..k], rs[k..]);
    assert EncodeAll(rs)[..k * RECORD_SIZE] == EncodeAll(rs[..k]);
  }

  /** A cut anywhere in an encoded stream loses at most the record it cuts. */
  lemma ScanEncodedPrefix(rs: seq<Record>, n: nat)
    requires n <= |EncodeAll(rs)|
    ensures n / RECORD_SIZE <= |rs|
    ensures Scan(EncodeAll(rs)[..n]).records == rs[..n / RECORD_SIZE]
    ensures Scan(EncodeAll(rs)[..n]).rest == EncodeAll(rs)[n / RECORD_SIZE * RECORD_SIZE..n]
  {
    CutEncoded(rs, n);
    ScanEncoded(rs[..n / RECORD_SIZE], EncodeAll(rs)[n / RECORD_SIZE * RECORD_SIZE..n]);
  }

  lemma FeedSteps(handled: seq<Record>, r: Record, before: seq<Byte>, after: seq<Byte>)
    requires Scan(before) == Scanned([r] + Scan(after).records, Scan(after).rest)
    ensures Feed(Scanned(handled, []), before) == Feed(Scanned(handled + [r], []), after)
  {
    assert [] + before == before && [] + after == after;
    assert handled + ([r] + Scan(after).records) == (handled + [r]) + Scan(after).records;
  }

  // ----- The receive buffer ----------------------------------------------

  /** What one `recv` reports. */
  datatype Received = Data(bytes: seq<Byte>) | Closed | Error

  /** `buffer`, `bytes_remaining` and `position` of `struct sock_plugin` and
      `struct buffer_t`; `handled` lists the records passed to
      `process_event`. */
  class RecvBuffer {
    const buffer: array<Byte>
    var position: nat
    var bytesRemaining: nat
    var handled: seq<Record>
    var connected: bool
    ghost var received: seq<Byte>

    predicate InBounds()
      reads this
    {
      position + bytesRemaining <= buffer.Length
    }

    function Unread(): seq<Byte>
      requires InBounds()
      reads this, buffer
    {
      buffer[position..position + bytesRemaining]
    }

    /** Holds between two calls: what was handed on and what is kept are the
        reading of everything received so far, and there is room for more. */
    ghost predicate Valid()
      reads this, buffer
    {
      && InBounds()
      && bytesRemaining < RECORD_SIZE <= buffer.Length
      && Scan(received) == Scanned(handled, Unread())
    }

    constructor (size: nat)
      requires RECORD_SIZE <= size
      ensures Valid() && connected && received == [] && handled == []
      ensures buffer.Length == size && fresh(buffer)
    {
      buffer := new Byte[size](_ => 0);
      position, bytesRemaining := 0, 0;
      handled, received, connected := [], [], true;
    }

    /** The loop of `findnext` that skips junk. */
    method SkipJunk()
      requires InBounds()
      modifies this`position, this`bytesRemaining
      ensures InBounds() && bytesRemaining <= old(bytesRemaining)
      ensures Scan(Unread()) == Scan(old(Unread()))
      ensures bytesRemaining >= RECORD_SIZE ==> HasMagic(Unread())
    {
      ghost var want := Scan(Unread());
      while bytesRemaining >= RECORD_SIZE && !HasMagic(buffer[position..position + 4])
        invariant InBounds() && bytesRemaining <= old(bytesRemaining)
        invariant Scan(Unread()) == want
        decreases bytesRemaining
      {
        ghost var before := Unread();
        assert forall i | 0 <= i < 4 :: before[i] == buffer[position..position + 4][i];
        bytesRemaining := bytesRemaining - 1;
        position := position + 1;
        assert before[1..] == Unread();
      }
      if bytesRemaining >= RECORD_SIZE {
        assert forall i | 0 <= i < 4 :: Unread()[i] == buffer[position..position + 4][i];
      }
    }

    method TakeRecord() returns (r: Record)
      requires InBounds() && bytesRemaining >= RECORD_SIZE
      modifies this`position, this`bytesRemaining
      ensures InBounds() && bytesRemaining == old(bytesRemaining) - RECORD_SIZE
      ensures r == Decode(old(Unread())[..RECORD_SIZE])
      ensures Unread() == old(Unread())[RECORD_SIZE..]
    {
      assert Unread()[..RECORD_SIZE] == buffer[position..position + RECORD_SIZE];
      r := Decode(buffer[position..position + RECORD_SIZE]);
      bytesRemaining := bytesRemaining - RECORD_SIZE;
      position := position + RECORD_SIZE;
    }

    /** `findnext`: skips junk, then takes one record. */
    method FindNext() returns (found: bool, r: Record)
      requires InBounds()
      modifies this`position, this`bytesRemaining
      ensures InBounds()
      ensures found <==> Scan(old(Unread())).records != []
      ensures found ==> Scan(old(Unread())) == Scanned([r] + Scan(Unread()).records, Scan(Unread()).rest)
      ensures !found ==> Scan(old(Unread())) == Scanned([], Unread())
      ensures bytesRemaining <= old(bytesRemaining) && (found ==> bytesRemaining < old(bytesRemaining))
    {
      r := Record(0, 0, 0);
      SkipJunk();
      found := bytesRemaining >= RECORD_SIZE;
      if found {
        r := TakeRecord();
      }
    }

    /** The `memmove` and the `recv` into the space behind the kept bytes. */
    method Refill(bytes: seq<Byte>)
      requires InBounds() && |bytes| <= buffer.Length - bytesRemaining
      modifies this`position, this`bytesRemaining, buffer
      ensures InBounds() && position == 0
      ensures Unread() == old(Unread()) + bytes
    {
      forall i | 0 <= i < bytesRemaining {
        buffer[i] := buffer[position + i];
      }
      position := 0;
      assert buffer[..bytesRemaining] == old(Unread());
      forall i | 0 <= i < |bytes| {
        buffer[bytesRemaining + i] := bytes[i];
      }
      bytesRemaining := bytesRemaining + |bytes|;
    }

    /** What will have been handed on, and kept, once the buffer is drained. */
    ghost function Outlook(): Scanned
      requires InBounds()
      reads this, buffer
    {
      Feed(Scanned(handled, []), Unread())
    }

    /** One turn of the loop: `findnext`, then `process_event`. */
    method HandleNext() returns (found: bool)
      requires InBounds()
      modifies this`position, this`bytesRemaining, this`handled
      ensures InBounds()
      ensures Outlook() == old(Outlook())
      ensures found ==> bytesRemaining < old(bytesRemaining)
      ensures !found ==> Outlook() == Scanned(handled, Unread())
    {
      ghost var before := Unread();
      var r;
      found, r := FindNext();
      if found {
        FeedSteps(handled, r, before, Unread());
        handled := handled + [r];
      } else {
        assert [] + before == before && [] + Unread() == Unread();
      }
    }

    /** The loop that hands on every complete record. */
    method Drain()
      requires InBounds()
      modifies this`position, this`bytesRemaining, this`handled
      ensures InBounds()
      ensures Scanned(handled, Unread()) == old(Outlook())
    {
      var found := HandleNext();
      while found
        invariant InBounds() && Outlook() == old(Outlook())
        invariant !found ==> Outlook() == Scanned(handled, Unread())
        decreases found, bytesRemaining
      {
        found := HandleNext();
      }
    }

    /** `wrapper_server_recv` after the `EINTR` retries: an error or an end of
        file drops the connection. */
    method ServerReceive(got: Received)
      requires Valid() && connected
      requires got.Data? ==> 0 < |got.bytes| <= buffer.Length - bytesRemaining
      modifies this, buffer
      ensures Valid()
      ensures connected <==> got.Data?
      ensures received == old(received) + (if got.Data? then got.bytes else [])
      ensures old(handled) <= handled
    {
      match got
      case Data(bytes) => Take(bytes);
      case Closed => connected := false; NothingNew();
      case Error => connected := false; NothingNew();
    }

    /** `recv_callback`: an error is only reported, an end of file stops. */
    method PluginReceive(got: Received)
      requires Valid() && connected
      requires got.Data? ==> 0 < |got.bytes| <= buffer.Length - bytesRemaining
      modifies this, buffer
      ensures Valid()
      ensures connected <==> !got.Closed?
      ensures received == old(received) + (if got.Data? then got.bytes else [])
      ensures old(handled) <= handled
    {
      match got
      case Data(bytes) => Take(bytes);
      case Closed => connected := false; NothingNew();
      case Error => NothingNew();
    }

    method Take(bytes: seq<Byte>)
      requires Valid() && |bytes| <= buffer.Length - bytesRemaining
      modifies this`position, this`bytesRemaining, this`handled, this`received, buffer
      ensures Valid() && connected == old(connected)
      ensures received == old(received) + bytes
      ensures old(handled) <= handled
    {
      FeedExtends(received, bytes);
      Refill(bytes);
      assert [] + Unread() == Unread();
      Drain();
      received := received + bytes;
    }

    /** The compaction that precedes every `recv`, when nothing arrives. */
    method NothingNew()
      requires Valid()
      modifies this`position, this`bytesRemaining, buffer
      ensures Valid() && position == 0
    {
      Refill([]);
      assert old(Unread()) + [] == old(Unread());
    }
  }
}

/** A link's send lock and the receive loop that parses the stream back.

The channel is ordered, so every envelope on it decrypts whoever speaks first
(FifoLink.EverythingOpens), and the stream is modelled as the sequence of envelopes; module
SecureLink puts the two together. */
module LinkStream {
  import opened Primitives
  import opened FileTransfer

  datatype Envelope =
    | Text(msgId: string, text: string)
    | Receipt(refMsgId: string, state: string)
    | Typing
    | FileOffer(msgId: string, offer: Offer)
    | FileChunk(chunk: Chunk)
    | Control(body: Bytes)

  /** What the receive loop reports. */
  datatype Item =
    | GotText(msgId: string, text: string)
    | GotReceipt(refMsgId: string, state: string)
    | GotTyping
    | GotFile(msgId: string, name: string, data: Bytes)
    | FileFailed

  // ---- Receiving ----

  const U64_LIMIT: int := 0x1_0000_0000_0000_0000

  /** The number of chunks an offer announces, in uint64 arithmetic. */
  function ChunkCount(o: Offer): nat {
    if o.chunkSize > 0 then (o.size + o.chunkSize - 1) % U64_LIMIT / o.chunkSize else 0
  }

  /** A body read as a chunk: JSON fills in what it finds and leaves the rest zero. */
  function AsChunk(env: Envelope): Option<Chunk> {
    match env
    case FileChunk(c) => Some(c)
    case FileOffer(_, o) => Some(Chunk(o.fileId, 0, Damaged([])))
    case Text(_, _) => Some(Chunk("", 0, Damaged([])))
    case Receipt(_, _) => Some(Chunk("", 0, Damaged([])))
    case Typing => None
    case Control(_) => None
  }

  /** No other envelope passes for a chunk: typing and control bodies are no chunks, and what is read from
      an offer, a text or a receipt never opens. */
  lemma OnlyChunksOpen(env: Envelope, key: Bytes, nonce: Bytes)
    ensures AsChunk(env).None? <==> env.Typing? || env.Control?
    ensures AsChunk(env).Some? && OpenFile(key, nonce, AsChunk(env).value.data).Some? ==> env == FileChunk(AsChunk(env).value)
  {
  }

  /** Reads `n` chunks: how many envelopes are consumed, and the chunks unless one is unreadable
      or the stream ends. */
  function ReadChunks(envs: seq<Envelope>, n: nat): (nat, Option<seq<Chunk>>) {
    if n == 0 then (0, Some([]))
    else if envs == [] then (0, None)
    else
      match AsChunk(envs[0])
      case None => (1, None)
      case Some(c) =>
        var (used, rest) := ReadChunks(envs[1..], n - 1);
        (used + 1, if rest.None? then None else Some([c] + rest.value))
  }

  lemma {:induction false} ReadChunksBound(envs: seq<Envelope>, n: nat)
    ensures ReadChunks(envs, n).0 <= |envs|
  {
    if n > 0 && envs != [] && AsChunk(envs[0]).Some? {
      ReadChunksBound(envs[1..], n - 1);
    }
  }

  /** The file a list of chunks rebuilds, if any; the hash makes it unique. */
  ghost function Rebuilt(o: Offer, chunks: seq<Chunk>): Option<Bytes> {
    if exists out :: Rebuilds(o, chunks, out) then
      var out :| Rebuilds(o, chunks, out); Some(out)
    else None
  }

  lemma RebuiltIs(o: Offer, chunks: seq<Chunk>, out: Bytes)
    ensures Rebuilt(o, chunks) == Some(out) <==> Rebuilds(o, chunks, out)
  {
    if Rebuilds(o, chunks, out) {
      var other := Rebuilt(o, chunks).value;
      var s: seq<Chunk> :| Arranges(o, chunks, s, out);
      var t: seq<Chunk> :| Arranges(o, chunks, t, other);
      assert Sha256(out) == Sha256(other);
    }
  }

  ghost function FileBody(o: Offer, envs: seq<Envelope>): (nat, Option<Bytes>) {
    var (used, chunks) := ReadChunks(envs, ChunkCount(o));
    (used, if chunks.None? then None else Rebuilt(o, chunks.value))
  }

  /** The result of reading on after `chunks` have been read. */
  function Resumed(chunks: seq<Chunk>, r: (nat, Option<seq<Chunk>>)): (nat, Option<seq<Chunk>>) {
    (|chunks| + r.0, if r.1.None? then None else Some(chunks + r.1.value))
  }

  lemma ReadOne(chunks: seq<Chunk>, envs: seq<Envelope>, n: nat)
    requires n > 0 && envs != [] && AsChunk(envs[0]).Some?
    ensures Resumed(chunks, ReadChunks(envs, n)) == Resumed(chunks + [AsChunk(envs[0]).value], ReadChunks(envs[1..], n - 1))
  {
    var c := AsChunk(envs[0]).value;
    var rest := ReadChunks(envs[1..], n - 1).1;
    if rest.Some? {
      assert chunks + ([c] + rest.value) == chunks + [c] + rest.value;
    }
  }

  /** `ReceiveFileBody`, reading from position `pos` of the stream. */
  method ReceiveFileBody(envs: seq<Envelope>, pos: nat, offer: Offer) returns (used: nat, r: Option<Bytes>)
    requires pos <= |envs|
    ensures (used, r) == FileBody(offer, envs[pos..])
    ensures used <= |envs| - pos
  {
    hide Rebuilds;
    var num := ChunkCount(offer);
    var chunks: seq<Chunk> := [];
    ReadChunksBound(envs[pos..], num);
    used := 0;
    assert envs[pos + 0..] == envs[pos..];
    assert forall s: seq<Chunk> :: [] + s == s;
    for i := 0 to num
      invariant used == i == |chunks| <= |envs| - pos
      invariant ReadChunks(envs[pos..], num) == Resumed(chunks, ReadChunks(envs[pos + i..], num - i))
    {
      if pos + i == |envs| {
        return used, None;
      }
      assert envs[pos + i..][0] == envs[pos + i] && envs[pos + i..][1..] == envs[pos + i + 1..];
      var c := AsChunk(envs[pos + i]);
      used := used + 1;
      if c.None? {
        return used, None;
      }
      ReadOne(chunks, envs[pos + i..], num - i);
      chunks := chunks + [c.value];
    }
    assert ReadChunks(envs[pos..], num).1 == Some(chunks) by {
      assert chunks + [] == chunks;
    }
    var file := Reassemble(offer, chunks);
    if file.Ok? {
      RebuiltIs(offer, chunks, file.value);
    }
    r := if file.Ok? then Some(file.value) else None;
  }

  /** The items a stream is parsed into. */
  ghost function Dispatch(envs: seq<Envelope>): seq<Item>
    decreases |envs|
  {
    if envs == [] then []
    else
      match envs[0]
      case Text(id, t) => [GotText(id, t)] + Dispatch(envs[1..])
      case Receipt(id, st) => [GotReceipt(id, st)] + Dispatch(envs[1..])
      case Typing => [GotTyping] + Dispatch(envs[1..])
      case FileOffer(id, o) =>
        var (used, data) := FileBody(o, envs[1..]);
        ReadChunksBound(envs[1..], ChunkCount(o));
        [if data.Some? then GotFile(id, o.name, data.value) else FileFailed] + Dispatch(envs[1..][used..])
      case _ => Dispatch(envs[1..])
  }

  /** The events pushed for the items, when saving the i-th item succeeds as `saved` says. */
  function Events(items: seq<Item>, saved: nat -> bool): seq<Item> {
    if items == [] then []
    else
      var n := |items| - 1;
      Events(items[..n], saved) + [if items[n].GotFile? && !saved(n) then FileFailed else items[n]]
  }

  /** The delivery receipts sent back, one for each text and each file kept. */
  function Receipts(events: seq<Item>): seq<string> {
    if events == [] then []
    else
      var n := |events| - 1;
      Receipts(events[..n])
      + match events[n]
        case GotText(id, _) => [id]
        case GotFile(id, _, _) => [id]
        case _ => []
  }

  lemma EventsNext(items: seq<Item>, item: Item, saved: nat -> bool)
    ensures Events(items + [item], saved) == Events(items, saved) + [if item.GotFile? && !saved(|items|) then FileFailed else item]
  {
    assert (items + [item])[..|items|] == items;
  }

  /** Each item is one event, in its place; a file that could not be saved is an error. */
  lemma {:induction false} EventsAt(items: seq<Item>, saved: nat -> bool, i: nat)
    requires i < |items|
    ensures |Events(items, saved)| == |items|
    ensures Events(items, saved)[i] == if items[i].GotFile? && !saved(i) then FileFailed else items[i]
    decreases |items|
  {
    var n := |items| - 1;
    if n > 0 {
      EventsAt(items[..n], saved, if i < n then i else 0);
    }
  }

  lemma ReceiptsNext(events: seq<Item>, e: Item)
    ensures Receipts(events + [e]) == Receipts(events) + match e case GotText(id, _) => [id] case GotFile(id, _, _) => [id] case _ => []
  {
    assert (events + [e])[..|events|] == events;
  }

  /** One turn of the loop: the item at a position of the stream, if any, and the position after it. */
  method ReceiveItem(envs: seq<Envelope>, pos: nat) returns (item: Option<Item>, after: nat)
    requires pos < |envs|
    ensures pos < after <= |envs|
    ensures Dispatch(envs[pos..]) == (if item.Some? then [item.value] else []) + Dispatch(envs[after..])
  {
    hide FileBody;
    assert envs[pos..][1..] == envs[pos + 1..];
    after := pos + 1;
    match envs[pos] {
      case Text(id, t) => item := Some(GotText(id, t));
      case Receipt(id, st) => item := Some(GotReceipt(id, st));
      case Typing => item := Some(GotTyping);
      case FileOffer(id, o) =>
        var used, data := ReceiveFileBody(envs, pos + 1, o);
        assert envs[pos + 1..][used..] == envs[pos + 1 + used..];
        item := Some(if data.Some? then GotFile(id, o.name, data.value) else FileFailed);
        after := pos + 1 + used;
      case _ => item := None;
    }
  }

  /** `recvLoop`: the events it pushes and the receipts it sends. */
  method ReceiveLoop(envs: seq<Envelope>, saved: nat -> bool) returns (events: seq<Item>, receipts: seq<string>)
    ensures events == Events(Dispatch(envs), saved)
    ensures receipts == Receipts(events)
  {
    hide Dispatch, Events, Receipts;
    NothingYet(saved);
    ghost var items: seq<Item> := [];
    var count, pos := 0, 0;
    events, receipts := [], [];
    assert envs[0..] == envs;
    while pos < |envs|
      invariant 0 <= pos <= |envs| && count == |items|
      invariant Dispatch(envs) == items + Dispatch(envs[pos..])
      invariant events == Events(items, saved) && receipts == Receipts(events)
      decreases |envs| - pos
    {
      var item, after := ReceiveItem(envs, pos);
      if item.Some? {
        var e := if item.value.GotFile? && !saved(count) then FileFailed else item.value;
        EventsNext(items, item.value, saved);
        ReceiptsNext(events, e);
        match e {
          case GotText(id, _) => receipts := receipts + [id];
          case GotFile(id, _, _) => receipts := receipts + [id];
          case _ =>
        }
        events, count := events + [e], count + 1;
        items := items + [item.value];
      }
      pos := after;
    }
    assert envs[pos..] == [] && items + [] == items;
  }

  lemma NothingYet(saved: nat -> bool)
    ensures Dispatch([]) == [] && Events([], saved) == [] && Receipts([]) == []
  {
  }

  // ---- Sending ----

  /** One call to SendText, SendReceipt, SendTyping or SendFile. */
  datatype Job = Single(env: Envelope) | WholeFile(msgId: string, offer: Offer, data: Bytes)

  predicate Genuine(j: Job) {
    match j
    case Single(env) => env.Text? || env.Receipt? || env.Typing?
    case WholeFile(_, o, data) =>
      && |o.transferKey| == 32 && |data| < 0x8000_0000_0000_0000
      && o == OfferFor(o.fileId, o.name, o.mime, data, 0, o.transferKey)
  }

  function Chunks(chunks: seq<Chunk>): seq<Envelope> {
    seq(|chunks|, i requires 0 <= i < |chunks| => FileChunk(chunks[i]))
  }

  /** What one call writes while it holds the lock. */
  function Block(j: Job): seq<Envelope>
    requires Genuine(j)
  {
    match j
    case Single(env) => [env]
    case WholeFile(id, o, data) => [FileOffer(id, o)] + Chunks(SealAll(o, Pieces(data, o.chunkSize)))
  }

  /** What the peer should report for one call. */
  function Reported(j: Job): Item
    requires Genuine(j)
  {
    match j
    case Single(Text(id, t)) => GotText(id, t)
    case Single(Receipt(id, st)) => GotReceipt(id, st)
    case Single(_) => GotTyping
    case WholeFile(id, o, data) =>
      if |Pieces(data, o.chunkSize)| <= U32_LIMIT then GotFile(id, o.name, data) else FileFailed
  }

  /** The sending side of a link; every method runs with the send lock held. */
  class Sender {
    var channel: seq<Envelope>

    constructor ()
      ensures channel == []
    {
      channel := [];
    }

    method SendEnvelope(env: Envelope)
      modifies this
      ensures channel == old(channel) + [env]
      ensures Genuine(Single(env)) ==> channel == old(channel) + Block(Single(env))
    {
      channel := channel + [env];
    }

    /** `fileId` and `key` come from the random source. */
    method SendFile(msgId: string, fileId: string, name: string, mime: string, data: Bytes, key: Bytes) returns (offer: Offer)
      requires |key| == 32 && |data| < 0x8000_0000_0000_0000
      modifies this
      ensures Genuine(WholeFile(msgId, offer, data))
      ensures channel == old(channel) + Block(WholeFile(msgId, offer, data))
      ensures offer.fileId == fileId && offer.name == name && offer.mime == mime && offer.size == |data|
      ensures offer.chunkSize == 16384 && offer.hash == Sha256(data) && offer.transferKey == key
      ensures Dispatch(channel[|old(channel)|..])
           == [if |data| <= 16384 * 0x1_0000_0000 then GotFile(msgId, name, data) else FileFailed]
    {
      hide Dispatch, SealAll, Pieces, Chunks, SealPiece;
      var chunks;
      offer, chunks := Split(fileId, name, mime, data, 0, key);
      ghost var before := channel;
      channel := channel + [FileOffer(msgId, offer)];
      ChunksNone(chunks);
      for i := 0 to |chunks|
        invariant channel == before + [FileOffer(msgId, offer)] + Chunks(chunks[..i])
      {
        ChunksNext(chunks, i);
        channel := channel + [FileChunk(chunks[i])];
      }
      assert chunks[..|chunks|] == chunks;
      assert channel[|before|..] == Block(WholeFile(msgId, offer, data));
      FileReported(msgId, offer, data);
    }
  }

  lemma ChunksNext(chunks: seq<Chunk>, i: nat)
    requires i < |chunks|
    ensures Chunks(chunks[..i + 1]) == Chunks(chunks[..i]) + [FileChunk(chunks[i])]
  {
  }

  lemma ChunksNone(chunks: seq<Chunk>)
    ensures Chunks(chunks[..0]) == []
  {
  }

  /** The peer reports a file as the offer names it. */
  lemma FileReported(msgId: string, o: Offer, data: Bytes)
    requires Genuine(WholeFile(msgId, o, data)) && o.chunkSize == 16384
    ensures Dispatch(Block(WholeFile(msgId, o, data)))
         == [if |data| <= 16384 * 0x1_0000_0000 then GotFile(msgId, o.name, data) else FileFailed]
  {
    hide Dispatch, Block, Pieces;
    var j := WholeFile(msgId, o, data);
    BlockRecovered(j, []);
    DispatchEnd();
    assert Block(j) + [] == Block(j);
    PieceCount(data, o.chunkSize);
  }

  lemma {:induction false} ReadAllChunks(chunks: seq<Chunk>, tail: seq<Envelope>)
    ensures ReadChunks(Chunks(chunks) + tail, |chunks|) == (|chunks|, Some(chunks))
  {
    if chunks != [] {
      var s := Chunks(chunks) + tail;
      assert s[1..] == Chunks(chunks[1..]) + tail;
      ReadAllChunks(chunks[1..], tail);
      assert [chunks[0]] + chunks[1..] == chunks;
    }
  }

  /** The receiver reads back exactly the block of a file: its chunk count is the sender's. */
  lemma FileRecovered(o: Offer, data: Bytes, tail: seq<Envelope>)
    requires |o.transferKey| == 32 && |data| < 0x8000_0000_0000_0000
    requires o == OfferFor(o.fileId, o.name, o.mime, data, 0, o.transferKey)
    ensures var sent := SealAll(o, Pieces(data, o.chunkSize));
      FileBody(o, Chunks(sent) + tail)
      == (|sent|, if |Pieces(data, o.chunkSize)| <= U32_LIMIT then Some(data) else None)
  {
    hide SealAll, Rebuilds, Pieces;
    var pieces := Pieces(data, o.chunkSize);
    var sent := SealAll(o, pieces);
    PieceCount(data, o.chunkSize);
    SealAllLength(o, pieces);
    ReadAllChunks(sent, tail);
    forall out ensures Rebuilds(o, sent, out) <==> out == data && |pieces| <= U32_LIMIT {
      RoundTrip(o.fileId, o.name, o.mime, data, 0, o.transferKey, sent, out);
    }
    RebuiltIs(o, sent, data);
  }

  predicate AllGenuine(jobs: seq<Job>) {
    forall i :: 0 <= i < |jobs| ==> Genuine(jobs[i])
  }

  function Stream(jobs: seq<Job>): seq<Envelope>
    requires AllGenuine(jobs)
  {
    if jobs == [] then [] else Block(jobs[0]) + Stream(jobs[1..])
  }

  function Report(jobs: seq<Job>): seq<Item>
    requires AllGenuine(jobs)
  {
    if jobs == [] then [] else [Reported(jobs[0])] + Report(jobs[1..])
  }

  /** The message a call expects to be acknowledged: a text, or a file that fits its chunk index. */
  function Acknowledged(j: Job): seq<string> {
    match j
    case Single(Text(id, _)) => [id]
    case WholeFile(id, o, data) => if |data| <= 16384 * 0x1_0000_0000 then [id] else []
    case _ => []
  }

  function AllAcknowledged(jobs: seq<Job>): seq<string> {
    if jobs == [] then []
    else AllAcknowledged(jobs[..|jobs| - 1]) + Acknowledged(jobs[|jobs| - 1])
  }

  lemma ReportLast(jobs: seq<Job>, j: Job)
    requires AllGenuine(jobs) && Genuine(j)
    ensures AllGenuine(jobs + [j]) && Report(jobs + [j]) == Report(jobs) + [Reported(j)]
    decreases |jobs|
  {
    hide Reported, Genuine;
    if jobs == [] {
      assert ([] + [j])[1..] == [];
    } else {
      ReportLast(jobs[1..], j);
      assert (jobs + [j])[1..] == jobs[1..] + [j];
    }
  }

  lemma ReportedAcknowledged(j: Job)
    requires Genuine(j)
    ensures Acknowledged(j) ==
      match Reported(j) case GotText(id, _) => [id] case GotFile(id, _, _) => [id] case _ => []
  {
    if j.WholeFile? {
      PieceCount(j.data, j.offer.chunkSize);
    }
  }

  /** When every file can be saved, the receipts sent back name exactly the texts and the files that fit,
      in the order of the calls. */
  lemma {:induction false} ReceiptsAnswerCalls(jobs: seq<Job>, saved: nat -> bool)
    requires AllGenuine(jobs) && forall i :: saved(i)
    ensures Events(Report(jobs), saved) == Report(jobs)
    ensures Receipts(Report(jobs)) == AllAcknowledged(jobs)
    decreases |jobs|
  {
    hide Reported, Genuine, Acknowledged, Report, Events, Receipts;
    if jobs == [] {
      ReportNone();
      NothingYet(saved);
    } else {
      var rest, j := jobs[..|jobs| - 1], jobs[|jobs| - 1];
      assert rest + [j] == jobs;
      ReportLast(rest, j);
      ReceiptsAnswerCalls(rest, saved);
      EventsNext(Report(rest), Reported(j), saved);
      ReceiptsNext(Report(rest), Reported(j));
      ReportedAcknowledged(j);
    }
  }

  lemma ReportNone()
    ensures Report([]) == []
  {
  }

  lemma SingleRecovered(env: Envelope, tail: seq<Envelope>)
    requires Genuine(Single(env))
    ensures Dispatch([env] + tail) == [Reported(Single(env))] + Dispatch(tail)
  {
    hide FileBody;
    assert ([env] + tail)[0] == env && ([env] + tail)[1..] == tail;
  }

  /** An offer, and what the receiver makes of the envelopes after it. */
  lemma OfferRead(s: seq<Envelope>, id: string, o: Offer)
    requires s != [] && s[0] == FileOffer(id, o)
    ensures var (used, data) := FileBody(o, s[1..]);
      && used <= |s| - 1
      && Dispatch(s) == [if data.Some? then GotFile(id, o.name, data.value) else FileFailed] + Dispatch(s[1..][used..])
  {
    ReadChunksBound(s[1..], ChunkCount(o));
    hide Rebuilt, ReadChunks, ChunkCount, AsChunk;
  }

  lemma BlockRecovered(j: Job, tail: seq<Envelope>)
    requires Genuine(j)
    ensures Dispatch(Block(j) + tail) == [Reported(j)] + Dispatch(tail)
  {
    hide Dispatch, FileBody, SealAll, Pieces, Genuine;
    match j
    case Single(env) => SingleRecovered(env, tail);
    case WholeFile(id, o, data) => FileBlockRecovered(id, o, data, tail);
  }

  lemma BlockShape(id: string, o: Offer, data: Bytes, tail: seq<Envelope>)
    requires Genuine(WholeFile(id, o, data))
    ensures var s, cs := Block(WholeFile(id, o, data)) + tail, Chunks(SealAll(o, Pieces(data, o.chunkSize)));
      && s != [] && s[0] == FileOffer(id, o) && s[1..] == cs + tail
      && |cs| == |SealAll(o, Pieces(data, o.chunkSize))| && (cs + tail)[|cs|..] == tail
  {
    hide SealAll, Pieces, Chunks;
    var sent := SealAll(o, Pieces(data, o.chunkSize));
    ChunksLength(sent);
    Behead(FileOffer(id, o), Chunks(sent), tail);
  }

  lemma ChunksLength(chunks: seq<Chunk>)
    ensures |Chunks(chunks)| == |chunks|
  {
  }

  lemma Behead(e: Envelope, cs: seq<Envelope>, tail: seq<Envelope>)
    ensures var s := [e] + cs + tail; s != [] && s[0] == e && s[1..] == cs + tail
    ensures (cs + tail)[|cs|..] == tail
  {
  }

  lemma FileBlockRecovered(id: string, o: Offer, data: Bytes, tail: seq<Envelope>)
    requires Genuine(WholeFile(id, o, data))
    ensures Dispatch(Block(WholeFile(id, o, data)) + tail) == [Reported(WholeFile(id, o, data))] + Dispatch(tail)
  {
    hide Dispatch, FileBody, SealAll, Pieces, Chunks, Block;
    BlockShape(id, o, data, tail);
    FileRecovered(o, data, tail);
    OfferRead(Block(WholeFile(id, o, data)) + tail, id, o);
  }

  /** Blocks written one after the other are reported one after the other, each file whole. */
  lemma {:induction false} StreamRecovered(jobs: seq<Job>, tail: seq<Envelope>)
    requires AllGenuine(jobs)
    ensures Dispatch(Stream(jobs) + tail) == Report(jobs) + Dispatch(tail)
  {
    hide Dispatch, Block, Reported;
    if jobs == [] {
      assert Stream(jobs) + tail == tail;
    } else {
      assert Stream(jobs) + tail == Block(jobs[0]) + (Stream(jobs[1..]) + tail);
      BlockRecovered(jobs[0], Stream(jobs[1..]) + tail);
      StreamRecovered(jobs[1..], tail);
    }
  }

  // ---- Concurrent senders ----

  /** The thread that holds the lock and what it has still to write. */
  datatype Holder = Holder(thread: nat, rest: seq<Envelope>)

  /** A link with its waiting calls per thread, the lock, the channel, the order in which calls took
      the lock, and how many of them came before the first one whose write failed. */
  datatype Link = Link(
    waiting: map<nat, seq<Job>>, lock: Option<Holder>, channel: seq<Envelope>, order: seq<(nat, Job)>, failed: Option<nat>)

  /** A write that fails ends the call, leaving its block unfinished. */
  datatype Action = Call(thread: nat, job: Job) | Lock(thread: nat) | Write | Unlock | Fail

  function Waiting(l: Link, t: nat): seq<Job> {
    if t in l.waiting then l.waiting[t] else []
  }

  predicate Enabled(l: Link, a: Action) {
    match a
    case Call(_, j) => Genuine(j)
    case Lock(t) => l.lock.None? && Waiting(l, t) != [] && Genuine(Waiting(l, t)[0])
    case Write => l.lock.Some? && l.lock.value.rest != []
    case Unlock => l.lock.Some? && l.lock.value.rest == []
    case Fail => l.lock.Some? && l.lock.value.rest != [] && l.order != []
  }

  function Step(l: Link, a: Action): Link
    requires Enabled(l, a)
  {
    match a
    case Call(t, j) => l.(waiting := l.waiting[t := Waiting(l, t) + [j]])
    case Lock(t) =>
      var j := Waiting(l, t)[0];
      l.(waiting := l.waiting[t := Waiting(l, t)[1..]], lock := Some(Holder(t, Block(j))), order := l.order + [(t, j)])
    case Write =>
      var h := l.lock.value;
      l.(channel := l.channel + [h.rest[0]], lock := Some(h.(rest := h.rest[1..])))
    case Unlock => l.(lock := None)
    case Fail => l.(lock := None, failed := if l.failed.Some? then l.failed else Some(|l.order| - 1))
  }

  function Jobs(order: seq<(nat, Job)>): seq<Job> {
    seq(|order|, i requires 0 <= i < |order| => order[i].1)
  }

  /** The calls of one thread in the order they took the lock. */
  function OfThread(order: seq<(nat, Job)>, t: nat): seq<Job> {
    if order == [] then []
    else
      var last := order[|order| - 1];
      OfThread(order[..|order| - 1], t) + if last.0 == t then [last.1] else []
  }

  /** The calls whose blocks are complete and come before any failure. */
  function Intact(l: Link): seq<(nat, Job)> {
    if l.failed.Some? && l.failed.value <= |l.order| then l.order[..l.failed.value]
    else if l.lock.Some? && l.order != [] then l.order[..|l.order| - 1]
    else l.order
  }

  ghost predicate Inv(l: Link) {
    && AllGenuine(Jobs(l.order))
    && (forall t :: t in l.waiting ==> AllGenuine(l.waiting[t]))
    && (l.lock.Some? ==> l.order != [])
    && (l.failed.Some? ==> l.failed.value <= |l.order|)
    && AllGenuine(Jobs(Intact(l)))
    && Stream(Jobs(Intact(l))) <= l.channel
    && (l.failed.None? ==> l.channel + (if l.lock.Some? then l.lock.value.rest else []) == Stream(Jobs(l.order)))
  }

  lemma {:induction false} StreamAppend(jobs: seq<Job>, j: Job)
    requires AllGenuine(jobs) && Genuine(j)
    ensures AllGenuine(jobs + [j]) && Stream(jobs + [j]) == Stream(jobs) + Block(j)
  {
    hide Block, Genuine;
    if jobs == [] {
      assert Stream([j]) == Block(j) + Stream([]);
    } else {
      StreamAppend(jobs[1..], j);
      assert (jobs + [j])[1..] == jobs[1..] + [j];
    }
  }

  lemma LockKeeps(l: Link, t: nat)
    requires Inv(l) && Enabled(l, Lock(t))
    ensures Inv(Step(l, Lock(t)))
  {
    hide Block, Genuine, Stream;
    var l' := Step(l, Lock(t));
    var j := Waiting(l, t)[0];
    assert Jobs(l'.order) == Jobs(l.order) + [j];
    StreamAppend(Jobs(l.order), j);
    assert l'.order[..|l.order|] == l.order;
    if l.failed.Some? {
      assert l'.order[..l.failed.value] == l.order[..l.failed.value];
    } else {
      assert l.channel + [] == l.channel;
    }
  }

  lemma UnlockKeeps(l: Link)
    requires Inv(l) && Enabled(l, Unlock)
    ensures Inv(Step(l, Unlock))
  {
    hide Block, Genuine, Stream;
    assert l.channel + [] == l.channel;
  }

  lemma StepKeeps(l: Link, a: Action)
    requires Inv(l) && Enabled(l, a)
    ensures Inv(Step(l, a))
  {
    hide Block, Genuine, Stream;
    match a
    case Call(t, j) =>
      assert AllGenuine(Waiting(l, t) + [j]);
    case Lock(t) => LockKeeps(l, t);
    case Write =>
      var rest := l.lock.value.rest;
      assert l.channel + [rest[0]] + rest[1..] == l.channel + rest;
    case Unlock => UnlockKeeps(l);
    case Fail =>
  }

  ghost predicate CanRun(l: Link, acts: seq<Action>)
    decreases |acts|
  {
    acts == [] || (Enabled(l, acts[0]) && CanRun(Step(l, acts[0]), acts[1..]))
  }

  ghost function Run(l: Link, acts: seq<Action>): Link
    requires CanRun(l, acts)
    decreases |acts|
  {
    if acts == [] then l else Run(Step(l, acts[0]), acts[1..])
  }

  lemma {:induction false} RunKeeps(l: Link, acts: seq<Action>)
    requires Inv(l) && CanRun(l, acts)
    ensures Inv(Run(l, acts))
    decreases |acts|
  {
    if acts != [] {
      StepKeeps(l, acts[0]);
      RunKeeps(Step(l, acts[0]), acts[1..]);
    }
  }

  const IDLE := Link(map[], None, [], [], None)

  /** The calls a thread made, in order. */
  function Made(acts: seq<Action>, t: nat): seq<Job> {
    if acts == [] then []
    else (if acts[0].Call? && acts[0].thread == t then [acts[0].job] else []) + Made(acts[1..], t)
  }

  lemma {:induction false} NothingLost(l: Link, acts: seq<Action>, t: nat)
    requires CanRun(l, acts)
    ensures var z := Run(l, acts);
      OfThread(z.order, t) + Waiting(z, t) == OfThread(l.order, t) + Waiting(l, t) + Made(acts, t)
    decreases |acts|
  {
    hide Block, Genuine, OfThread, Waiting, Step;
    if acts != [] {
      NothingLost(Step(l, acts[0]), acts[1..], t);
      StepConserves(l, acts[0], t);
      var start := OfThread(l.order, t) + Waiting(l, t);
      var here := if acts[0].Call? && acts[0].thread == t then [acts[0].job] else [];
      assert start + here + Made(acts[1..], t) == start + (here + Made(acts[1..], t));
    }
  }

  lemma StepConserves(l: Link, a: Action, t: nat)
    requires Enabled(l, a)
    ensures OfThread(Step(l, a).order, t) + Waiting(Step(l, a), t)
         == OfThread(l.order, t) + Waiting(l, t) + if a.Call? && a.thread == t then [a.job] else []
  {
    hide Block, Genuine;
    if a.Lock? {
      var j := Waiting(l, a.thread)[0];
      assert (l.order + [(a.thread, j)])[..|l.order|] == l.order;
      assert [j] + Waiting(l, a.thread)[1..] == Waiting(l, a.thread);
    }
  }

  lemma IntactReported(l: Link)
    requires Inv(l)
    ensures Report(Jobs(Intact(l))) <= Dispatch(l.channel)
  {
    hide Dispatch, Block, Genuine, Stream, Report;
    var done := Stream(Jobs(Intact(l)));
    StreamRecovered(Jobs(Intact(l)), l.channel[|done|..]);
    assert done + l.channel[|done|..] == l.channel;
  }

  /** Stream recovery: under every schedule of any number of threads, the peer's receive loop reports
      first the calls that completed before any write failed, in the order they took the lock and each
      file whole; with no failure and the lock free it reports exactly the calls that took it; and each
      thread's calls took it in the order they were made. */
  lemma ConcurrentSendersRecovered(acts: seq<Action>, t: nat)
    requires CanRun(IDLE, acts)
    ensures var l := Run(IDLE, acts);
      && AllGenuine(Jobs(l.order)) && AllGenuine(Jobs(Intact(l)))
      && Report(Jobs(Intact(l))) <= Dispatch(l.channel)
      && (l.failed.None? && l.lock.None? ==> Dispatch(l.channel) == Report(Jobs(l.order)))
      && OfThread(l.order, t) + Waiting(l, t) == Made(acts, t)
  {
    assert Inv(IDLE);
    hide Dispatch, Block, Genuine, Stream, Report;
    RunKeeps(IDLE, acts);
    NothingLost(IDLE, acts, t);
    var l := Run(IDLE, acts);
    IntactReported(l);
    if l.failed.None? && l.lock.None? {
      StreamRecovered(Jobs(l.order), []);
      DispatchEnd();
      assert l.channel + [] == l.channel && Stream(Jobs(l.order)) + [] == Stream(Jobs(l.order));
    }
  }

  lemma DispatchEnd()
    ensures Dispatch([]) == []
  {
  }
}

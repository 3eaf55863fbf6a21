/** Chunked file transfer: splitting, sealing and reassembling. */
module FileTransfer {
  import opened Primitives
  import opened Encoding

  const DEFAULT_CHUNK_SIZE: U32 := 16 * 1024

  /** SHA-256 is collision free. */
  datatype Digest = Sha256(data: Bytes) | OtherDigest(raw: Bytes)

  /** A chunk body opens under exactly the key and nonce that sealed it. */
  datatype Body = SealedBody(key: Bytes, nonce: Bytes, plaintext: Bytes) | Damaged(raw: Bytes)

  datatype Offer = Offer(
    fileId: string, name: string, size: nat, mime: string, chunkSize: U32, hash: Digest, transferKey: Bytes)

  datatype Chunk = Chunk(fileId: string, index: U32, data: Body)

  datatype Error = MissingOrDuplicate | NotOpened | SizeMismatch | IntegrityFailed

  /** The conversion `uint32(i)`. */
  function Wrap32(i: nat): U32 {
    i % U32_LIMIT
  }

  function NonceFor(index: U32): Bytes {
    [0, 0, 0, 0, 0, 0, 0, 0] + BigEndian32(index)
  }

  lemma NonceInjective(i: U32, j: U32)
    requires NonceFor(i) == NonceFor(j)
    ensures i == j
  {
    assert BigEndian32(i) == NonceFor(i)[8..] == NonceFor(j)[8..] == BigEndian32(j);
    BigEndian32RoundTrip(i);
    BigEndian32RoundTrip(j);
  }

  /** Twelve octets: eight zeros and the index, the most significant octet first. */
  lemma NonceLayout(i: U32)
    ensures var n := NonceFor(i);
      && |n| == 12 && (forall k :: 0 <= k < 8 ==> n[k] == 0)
      && n[8] as int * 16777216 + n[9] as int * 65536 + n[10] as int * 256 + n[11] as int == i
  {
    BigEndian32Denotes(i);
  }

  function OpenFile(key: Bytes, nonce: Bytes, body: Body): Option<Bytes> {
    if |key| == 32 && body.SealedBody? && body.key == key && body.nonce == nonce then Some(body.plaintext) else None
  }

  // ---- Splitting ----

  function Pieces(data: Bytes, size: nat): seq<Bytes>
    requires size > 0
    decreases |data|
  {
    if data == [] then [] else if |data| <= size then [data] else [data[..size]] + Pieces(data[size..], size)
  }

  function Joined(pieces: seq<Bytes>): Bytes {
    if pieces == [] then [] else pieces[0] + Joined(pieces[1..])
  }

  lemma {:induction false} JoinedPieces(data: Bytes, size: nat)
    requires size > 0
    ensures Joined(Pieces(data, size)) == data
    decreases |data|
  {
    hide Joined;
    JoinedNone();
    if |data| > size {
      var rest := Pieces(data[size..], size);
      JoinedPieces(data[size..], size);
      JoinedFirst(data[..size], rest);
      assert Pieces(data, size) == [data[..size]] + rest;
      assert data[..size] + data[size..] == data;
    } else if data != [] {
      JoinedFirst(data, []);
      assert Pieces(data, size) == [data] + [];
    }
  }

  lemma JoinedNone()
    ensures Joined([]) == []
  {
  }

  lemma JoinedFirst(piece: Bytes, rest: seq<Bytes>)
    ensures Joined([piece] + rest) == piece + Joined(rest)
  {
    assert ([piece] + rest)[1..] == rest;
  }

  /** Piece i is the i-th stretch of `size` octets; only the last may be shorter. */
  lemma {:induction false} PieceAt(data: Bytes, size: nat, i: nat)
    requires size > 0 && i < |Pieces(data, size)|
    ensures i * size < |data|
    ensures Pieces(data, size)[i] == data[i * size..if (i + 1) * size < |data| then (i + 1) * size else |data|]
    decreases |data|
  {
    if |data| > size && i > 0 {
      PieceAt(data[size..], size, i - 1);
      assert (i - 1) * size + size == i * size && i * size + size == (i + 1) * size;
    }
  }

  lemma MulStep(p: int, q: int, b: nat)
    requires p < q
    ensures p * b + b <= q * b
  {
    var d := q - p - 1;
    assert q * b == p * b + b + d * b by {
      assert q == p + 1 + d;
    }
    assert d * b >= 0;
  }

  lemma DivUnique(x: nat, b: nat, q: nat, r: nat)
    requires 0 <= r < b && x == q * b + r
    ensures x / b == q
  {
    var p := x / b;
    assert x == p * b + x % b;
    if p < q {
      MulStep(p, q, b);
    } else if p > q {
      MulStep(q, p, b);
    }
  }

  lemma DivStep(a: nat, b: nat)
    requires b > 0
    ensures (a + b) / b == a / b + 1
  {
    DivUnique(a + b, b, a / b + 1, a % b);
  }

  /** The receiver's ceiling division counts exactly the chunks the sender emits. */
  lemma {:induction false} PieceCount(data: Bytes, size: nat)
    requires size > 0
    ensures |Pieces(data, size)| == (|data| + size - 1) / size
    decreases |data|
  {
    if |data| > size {
      PieceCount(data[size..], size);
      DivStep(|data| - 1, size);
    } else if data != [] {
      DivStep(|data| - 1, size);
      assert (|data| - 1) / size == 0;
    }
  }

  lemma {:induction false} PiecesNonempty(data: Bytes, size: nat, i: nat)
    requires size > 0 && i < |Pieces(data, size)|
    ensures Pieces(data, size)[i] != []
    decreases |data|
  {
    if |data| > size && i > 0 {
      PiecesNonempty(data[size..], size, i - 1);
    }
  }

  lemma NextPiece(rest: Bytes, size: nat, taken: nat)
    requires size > 0 && rest != [] && taken == (if |rest| < size then |rest| else size)
    ensures |Pieces(rest, size)| > 0 && Pieces(rest, size)[0] == rest[..taken]
    ensures Pieces(rest, size)[1..] == Pieces(rest[taken..], size)
  {
    if |rest| <= size {
      assert rest[..taken] == rest && rest[taken..] == [];
    }
  }

  function SealPiece(offer: Offer, i: nat, piece: Bytes): Chunk {
    Chunk(offer.fileId, Wrap32(i), SealedBody(offer.transferKey, NonceFor(Wrap32(i)), piece))
  }

  /** The chunks of a file: piece `i` sealed under index `i`. */
  function SealAll(offer: Offer, pieces: seq<Bytes>): seq<Chunk> {
    seq(|pieces|, i requires 0 <= i < |pieces| => SealPiece(offer, i, pieces[i]))
  }

  function OfferFor(fileId: string, name: string, mime: string, data: Bytes, chunkSize: U32, key: Bytes): Offer {
    Offer(fileId, name, |data|, mime, if chunkSize == 0 then DEFAULT_CHUNK_SIZE else chunkSize, Sha256(data), key)
  }

  /** `key` and `fileId` are what the random source returns. */
  method Split(fileId: string, name: string, mime: string, data: Bytes, size: U32, key: Bytes)
    returns (offer: Offer, chunks: seq<Chunk>)
    requires |key| == 32
    ensures offer.fileId == fileId && offer.name == name && offer.mime == mime && offer.size == |data|
    ensures offer.chunkSize == (if size == 0 then 16384 else size) && offer.hash == Sha256(data) && offer.transferKey == key
    ensures |chunks| == |Pieces(data, offer.chunkSize)|
    ensures forall i :: 0 <= i < |chunks| ==>
      && chunks[i].fileId == fileId && chunks[i].index == i % 0x1_0000_0000
      && chunks[i].data == SealedBody(key, NonceFor(chunks[i].index), Pieces(data, offer.chunkSize)[i])
    ensures offer == OfferFor(fileId, name, mime, data, size, key)
    ensures chunks == SealAll(offer, Pieces(data, offer.chunkSize))
  {
    hide NonceFor;
    var chunkSize := if size == 0 then DEFAULT_CHUNK_SIZE else size;
    offer := Offer(fileId, name, |data|, mime, chunkSize, Sha256(data), key);
    ghost var pieces := Pieces(data, chunkSize);
    chunks := [];
    var i, off := 0, 0;
    while off < |data|
      invariant 0 <= off <= |data| && i == |chunks| <= |pieces|
      invariant Pieces(data[off..], chunkSize) == pieces[i..]
      invariant chunks == SealAll(offer, pieces[..i])
      decreases |data| - off
    {
      var end := off + chunkSize;
      if end > |data| {
        end := |data|;
      }
      NextPiece(data[off..], chunkSize, end - off);
      assert data[off..][..end - off] == data[off..end];
      assert data[off..][end - off..] == data[end..];
      assert pieces[i] == pieces[i..][0] && pieces[i..][1..] == pieces[i + 1..];
      assert pieces[..i + 1] == pieces[..i] + [data[off..end]];
      chunks := chunks + [Chunk(fileId, Wrap32(i), SealedBody(key, NonceFor(Wrap32(i)), data[off..end]))];
      i, off := i + 1, end;
    }
    assert pieces[..i] == pieces;
  }

  // ---- Reassembling ----

  /** An arrangement of the chunks with index `i` in position `i`. */
  ghost predicate InIndexOrder(ordered: seq<Chunk>) {
    forall i :: 0 <= i < |ordered| ==> ordered[i].index == i
  }

  /** The plaintexts of the chunks, each opened at its own index. */
  function OpenEach(key: Bytes, ordered: seq<Chunk>): Option<seq<Bytes>> {
    if ordered == [] then Some([])
    else
      var last := ordered[|ordered| - 1];
      match (OpenEach(key, ordered[..|ordered| - 1]), OpenFile(key, NonceFor(last.index), last.data))
      case (Some(front), Some(pt)) => Some(front + [pt])
      case _ => None
  }

  /** What acceptance means: the chunks are indexed 0 up to n-1 once each, they all open, and the
      joined plaintext has the offered size and hash. */
  ghost predicate Rebuilds(offer: Offer, chunks: seq<Chunk>, out: Bytes) {
    exists ordered: seq<Chunk> :: Arranges(offer, chunks, ordered, out)
  }

  ghost predicate Arranges(offer: Offer, chunks: seq<Chunk>, ordered: seq<Chunk>, out: Bytes) {
    && multiset(ordered) == multiset(chunks) && InIndexOrder(ordered)
    && OpenEach(offer.transferKey, ordered).Some?
    && out == Joined(OpenEach(offer.transferKey, ordered).value)
    && |out| == offer.size && Sha256(out) == offer.hash
  }

  predicate SortedByIndex(s: seq<Chunk>) {
    forall i, j :: 0 <= i < j < |s| ==> s[i].index <= s[j].index
  }

  function Insert(s: seq<Chunk>, c: Chunk): seq<Chunk> {
    if s == [] || s[|s| - 1].index <= c.index then s + [c] else Insert(s[..|s| - 1], c) + [s[|s| - 1]]
  }

  lemma {:induction false} InsertContents(s: seq<Chunk>, c: Chunk)
    ensures multiset(Insert(s, c)) == multiset(s) + multiset{c}
  {
    if s != [] {
      InsertContents(s[..|s| - 1], c);
      assert s == s[..|s| - 1] + [s[|s| - 1]];
    }
  }

  lemma {:induction false} InsertBound(s: seq<Chunk>, c: Chunk, b: U32)
    requires c.index <= b && forall i :: 0 <= i < |s| ==> s[i].index <= b
    ensures forall i :: 0 <= i < |Insert(s, c)| ==> Insert(s, c)[i].index <= b
  {
    if s != [] {
      InsertBound(s[..|s| - 1], c, b);
    }
  }

  lemma {:induction false} InsertSorted(s: seq<Chunk>, c: Chunk)
    requires SortedByIndex(s)
    ensures SortedByIndex(Insert(s, c))
  {
    if s != [] && s[|s| - 1].index > c.index {
      InsertSorted(s[..|s| - 1], c);
      InsertBound(s[..|s| - 1], c, s[|s| - 1].index);
    }
  }

  /** The library sort: some arrangement in order of index. */
  method SortByIndex(chunks: seq<Chunk>) returns (s: seq<Chunk>)
    ensures SortedByIndex(s) && multiset(s) == multiset(chunks)
  {
    s := [];
    for k := 0 to |chunks|
      invariant SortedByIndex(s) && multiset(s) == multiset(chunks[..k])
    {
      assert chunks[..k + 1] == chunks[..k] + [chunks[k]];
      InsertContents(s, chunks[k]);
      InsertSorted(s, chunks[k]);
      s := Insert(s, chunks[k]);
    }
    assert chunks[..|chunks|] == chunks;
  }

  lemma CommonPrefix(s: seq<Chunk>, t: seq<Chunk>, i: nat)
    requires multiset(s) == multiset(t) && i <= |s| && i <= |t| && s[..i] == t[..i]
    ensures multiset(s[i..]) == multiset(t[i..])
  {
    assert s == s[..i] + s[i..] && t == t[..i] + t[i..];
    assert multiset(s[i..]) == multiset(s) - multiset(s[..i]);
    assert multiset(t[i..]) == multiset(t) - multiset(t[..i]);
  }

  /** Sorting finds the index order whenever there is one. */
  lemma {:induction false} SortedIsIndexOrder(ordered: seq<Chunk>, s: seq<Chunk>, k: nat)
    requires InIndexOrder(ordered) && SortedByIndex(s) && multiset(s) == multiset(ordered) && k <= |s|
    ensures |s| == |ordered| && s[..k] == ordered[..k]
  {
    assert |s| == |multiset(s)| == |multiset(ordered)| == |ordered|;
    if k > 0 {
      var i := k - 1;
      SortedIsIndexOrder(ordered, s, i);
      CommonPrefix(s, ordered, i);
      SameAt(ordered, s, i);
      assert s[..k] == s[..i] + [s[i]];
    }
  }

  lemma SameAt(ordered: seq<Chunk>, s: seq<Chunk>, i: nat)
    requires InIndexOrder(ordered) && SortedByIndex(s) && i < |s| == |ordered|
    requires multiset(s[i..]) == multiset(ordered[i..])
    ensures s[i] == ordered[i]
  {
    var t, o := s[i..], ordered[i..];
    assert o[0] in multiset(o) && t[0] in multiset(t);
    assert o[0] in t && t[0] in o;
    var j :| 0 <= j < |t| && t[j] == o[0];
    assert s[i + j] == ordered[i];
    var m :| 0 <= m < |o| && o[m] == t[0];
    assert ordered[i + m] == s[i];
  }

  lemma {:induction false} OpenEachFails(key: Bytes, ordered: seq<Chunk>, i: nat)
    requires i < |ordered| && OpenFile(key, NonceFor(ordered[i].index), ordered[i].data).None?
    ensures OpenEach(key, ordered).None?
  {
    if i < |ordered| - 1 {
      OpenEachFails(key, ordered[..|ordered| - 1], i);
    }
  }

  lemma {:induction false} JoinedAppend(pieces: seq<Bytes>, last: Bytes)
    ensures Joined(pieces + [last]) == Joined(pieces) + last
  {
    if pieces == [] {
      assert Joined([last]) == last + Joined([]);
    } else {
      JoinedAppend(pieces[1..], last);
      assert (pieces + [last])[1..] == pieces[1..] + [last];
    }
  }

  /** A transfer key of the wrong length opens no chunk. */
  lemma KeyLength(offer: Offer, chunks: seq<Chunk>, out: Bytes)
    requires Rebuilds(offer, chunks, out) && chunks != []
    ensures |offer.transferKey| == 32
  {
    var ordered: seq<Chunk> :| Arranges(offer, chunks, ordered, out);
    assert |multiset(ordered)| == |ordered| && |multiset(chunks)| == |chunks|;
    assert OpenEach(offer.transferKey, ordered).Some?;
  }

  lemma ArrangedIsSorted(offer: Offer, chunks: seq<Chunk>, s: seq<Chunk>, out: Bytes)
    requires SortedByIndex(s) && multiset(s) == multiset(chunks) && Rebuilds(offer, chunks, out)
    ensures Arranges(offer, chunks, s, out)
  {
    var ordered: seq<Chunk> :| Arranges(offer, chunks, ordered, out);
    SortedIsIndexOrder(ordered, s, |s|);
    assert s[..|s|] == s && ordered[..|ordered|] == ordered;
  }

  /** The first chunk that stops the loop, and why. */
  ghost predicate FirstFault(key: Bytes, ordered: seq<Chunk>, error: Error) {
    exists i :: 0 <= i < |ordered| && InIndexOrder(ordered[..i]) && OpenEach(key, ordered[..i]).Some?
      && (if ordered[i].index != i then error == MissingOrDuplicate
          else OpenFile(key, NonceFor(ordered[i].index), ordered[i].data).None? && error == NotOpened)
  }

  /** Which error is reported: the first faulty chunk, else the size, else the hash. */
  ghost predicate Fault(offer: Offer, ordered: seq<Chunk>, error: Error) {
    || FirstFault(offer.transferKey, ordered, error)
    || (&& InIndexOrder(ordered) && OpenEach(offer.transferKey, ordered).Some?
        && var out := Joined(OpenEach(offer.transferKey, ordered).value);
           if |out| != offer.size then error == SizeMismatch
           else Sha256(out) != offer.hash && error == IntegrityFailed)
  }

  /** The loop of `Reassemble` over the sorted chunks. */
  method OpenInOrder(key: Bytes, ordered: seq<Chunk>) returns (r: Result<Bytes, Error>)
    requires SortedByIndex(ordered)
    ensures r.Ok? ==> InIndexOrder(ordered) && OpenEach(key, ordered).Some? && r.value == Joined(OpenEach(key, ordered).value)
    ensures r.Err? ==> !InIndexOrder(ordered) || OpenEach(key, ordered).None?
    ensures r.Err? ==> FirstFault(key, ordered, r.error)
  {
    hide NonceFor;
    var out: Bytes := [];
    for i := 0 to |ordered|
      invariant OpenEach(key, ordered[..i]).Some? && Joined(OpenEach(key, ordered[..i]).value) == out
      invariant InIndexOrder(ordered[..i])
    {
      var c := ordered[i];
      if c.index != Wrap32(i) {
        assert ordered[i].index != i;
        return Err(MissingOrDuplicate);
      }
      IndexFits(ordered, i);
      var pt := OpenFile(key, NonceFor(c.index), c.data);
      if pt.None? {
        OpenEachFails(key, ordered, i);
        return Err(NotOpened);
      }
      assert ordered[..i + 1][..i] == ordered[..i];
      JoinedAppend(OpenEach(key, ordered[..i]).value, pt.value);
      out := out + pt.value;
    }
    assert ordered[..|ordered|] == ordered;
    r := Ok(out);
  }

  lemma IndexOrderFits(s: seq<Chunk>)
    requires InIndexOrder(s)
    ensures |s| <= U32_LIMIT
  {
    if s != [] {
      assert s[|s| - 1].index == |s| - 1;
    }
  }

  /** In a sorted list, position 2^32 cannot hold the wrapped index 0. */
  lemma IndexFits(ordered: seq<Chunk>, i: nat)
    requires SortedByIndex(ordered) && i < |ordered| && InIndexOrder(ordered[..i]) && ordered[i].index == Wrap32(i)
    ensures ordered[i].index == i
  {
    IndexOrderFits(ordered[..i]);
    if i > 0 {
      assert ordered[..i][i - 1].index == i - 1;
      assert ordered[i - 1].index <= ordered[i].index;
    }
  }

  method Reassemble(offer: Offer, chunks: seq<Chunk>) returns (r: Result<Bytes, Error>)
    ensures r.Ok? ==> Rebuilds(offer, chunks, r.value)
    ensures r.Err? ==> forall out :: !Rebuilds(offer, chunks, out)
    ensures r.Err? ==> exists ordered: seq<Chunk> ::
      multiset(ordered) == multiset(chunks) && SortedByIndex(ordered) && Fault(offer, ordered, r.error)
  {
    var ordered := SortByIndex(chunks);
    forall out | Rebuilds(offer, chunks, out) ensures Arranges(offer, chunks, ordered, out) {
      ArrangedIsSorted(offer, chunks, ordered, out);
    }
    r := OpenInOrder(offer.transferKey, ordered);
    if r.Ok? {
      if |r.value| != offer.size {
        return Err(SizeMismatch);
      }
      if Sha256(r.value) != offer.hash {
        return Err(IntegrityFailed);
      }
      assert Arranges(offer, chunks, ordered, r.value);
    }
  }

  // ---- Theorems ----

  lemma {:induction false} OpenSealed(offer: Offer, pieces: seq<Bytes>)
    requires |offer.transferKey| == 32
    ensures OpenEach(offer.transferKey, SealAll(offer, pieces)) == Some(pieces)
  {
    if pieces != [] {
      var front := pieces[..|pieces| - 1];
      OpenSealed(offer, front);
      assert SealAll(offer, pieces)[..|pieces| - 1] == SealAll(offer, front);
      assert pieces == front + [pieces[|pieces| - 1]];
    }
  }

  lemma SealedInOrder(offer: Offer, pieces: seq<Bytes>)
    ensures InIndexOrder(SealAll(offer, pieces)) <==> |pieces| <= U32_LIMIT
  {
    var sent := SealAll(offer, pieces);
    if |pieces| <= U32_LIMIT {
      forall i | 0 <= i < |sent| ensures sent[i].index == i {
      }
    }
    if InIndexOrder(sent) {
      IndexOrderFits(sent);
    }
  }

  /** Round trip: any arrangement of the chunks of a file rebuilds exactly the file if and only if
      the chunk count fits the 32-bit index. */
  lemma RoundTrip(fileId: string, name: string, mime: string, data: Bytes, size: U32, key: Bytes, got: seq<Chunk>, out: Bytes)
    requires |key| == 32
    requires var offer := OfferFor(fileId, name, mime, data, size, key);
      multiset(got) == multiset(SealAll(offer, Pieces(data, offer.chunkSize)))
    ensures var offer := OfferFor(fileId, name, mime, data, size, key);
      Rebuilds(offer, got, out) <==> out == data && |Pieces(data, offer.chunkSize)| <= U32_LIMIT
  {
    hide SealAll, InIndexOrder, OpenEach, Pieces;
    var offer := OfferFor(fileId, name, mime, data, size, key);
    var pieces := Pieces(data, offer.chunkSize);
    var sent := SealAll(offer, pieces);
    OpenSealed(offer, pieces);
    JoinedPieces(data, offer.chunkSize);
    SealedInOrder(offer, pieces);
    if |pieces| <= U32_LIMIT {
      assert Arranges(offer, got, sent, data);
    }
    if Rebuilds(offer, got, out) {
      var ordered: seq<Chunk> :| Arranges(offer, got, ordered, out);
      IndexOrderFits(ordered);
      assert |ordered| == |multiset(ordered)| == |multiset(sent)| == |sent|;
      SealAllLength(offer, pieces);
    }
  }

  lemma SealAllLength(offer: Offer, pieces: seq<Bytes>)
    ensures |SealAll(offer, pieces)| == |pieces|
  {
  }

  /** The sender's chunk body for an index, if that index is in use. */
  predicate SentBody(offer: Offer, pieces: seq<Bytes>, body: Body) {
    exists i :: 0 <= i < |pieces| && body == SealPiece(offer, i, pieces[i]).data
  }

  lemma SentAt(offer: Offer, pieces: seq<Bytes>, c: Chunk)
    requires |pieces| <= U32_LIMIT && OpenFile(offer.transferKey, NonceFor(c.index), c.data).Some? && SentBody(offer, pieces, c.data)
    ensures c.index < |pieces| && c.data == SealPiece(offer, c.index, pieces[c.index]).data
    ensures c.data.plaintext == pieces[c.index]
  {
    hide NonceFor;
    var i :| 0 <= i < |pieces| && c.data == SealPiece(offer, i, pieces[i]).data;
    NonceInjective(c.index, i);
  }

  lemma {:induction false} OpenedPieces(offer: Offer, pieces: seq<Bytes>, ordered: seq<Chunk>)
    requires InIndexOrder(ordered) && |pieces| <= U32_LIMIT && OpenEach(offer.transferKey, ordered).Some?
    requires forall c :: c in ordered && OpenFile(offer.transferKey, NonceFor(c.index), c.data).Some? ==> SentBody(offer, pieces, c.data)
    ensures |ordered| <= |pieces| && OpenEach(offer.transferKey, ordered).value == pieces[..|ordered|]
    ensures forall i :: 0 <= i < |ordered| ==> ordered[i].data == SealPiece(offer, i, pieces[i]).data
  {
    hide NonceFor, SealPiece, SentBody;
    if ordered != [] {
      var n := |ordered| - 1;
      var c := ordered[n];
      OpenedPieces(offer, pieces, ordered[..n]);
      assert c in ordered && c.index == n;
      SentAt(offer, pieces, c);
      assert pieces[..n + 1] == pieces[..n] + [pieces[n]];
    }
  }

  lemma {:induction false} JoinedLength(pieces: seq<Bytes>, n: nat)
    requires n < |pieces| && forall i :: 0 <= i < |pieces| ==> pieces[i] != []
    ensures |Joined(pieces[..n])| < |Joined(pieces)|
  {
    if n == 0 {
      assert Joined(pieces[..0]) == [];
    } else {
      JoinedLength(pieces[1..], n - 1);
      assert pieces[..n][1..] == pieces[1..][..n - 1];
    }
  }

  /** Soundness: when nothing seals under the transfer key but the sender, an accepted list holds
      every chunk of the file exactly once, unaltered, and yields the file. */
  lemma OnlyWholeFileAccepted(fileId: string, name: string, mime: string, data: Bytes, size: U32, key: Bytes, chunks: seq<Chunk>, out: Bytes)
    requires |Pieces(data, OfferFor(fileId, name, mime, data, size, key).chunkSize)| <= U32_LIMIT
    requires var offer := OfferFor(fileId, name, mime, data, size, key);
      && Rebuilds(offer, chunks, out)
      && forall c :: c in chunks && OpenFile(key, NonceFor(c.index), c.data).Some?
           ==> SentBody(offer, Pieces(data, offer.chunkSize), c.data)
    ensures var offer := OfferFor(fileId, name, mime, data, size, key);
      var pieces := Pieces(data, offer.chunkSize);
      && out == data && |chunks| == |pieces|
      && exists ordered: seq<Chunk> :: multiset(ordered) == multiset(chunks) && |ordered| == |pieces|
           && forall i :: 0 <= i < |pieces| ==> ordered[i].index == i && ordered[i].data == SealPiece(offer, i, pieces[i]).data
  {
    var offer := OfferFor(fileId, name, mime, data, size, key);
    var pieces := Pieces(data, offer.chunkSize);
    var ordered: seq<Chunk> :| Arranges(offer, chunks, ordered, out);
    forall c | c in ordered ensures c in chunks {
      assert c in multiset(ordered);
    }
    OpenedPieces(offer, pieces, ordered);
    JoinedPieces(data, offer.chunkSize);
    if |ordered| < |pieces| {
      forall i | 0 <= i < |pieces| ensures pieces[i] != [] {
        PiecesNonempty(data, offer.chunkSize, i);
      }
      JoinedLength(pieces, |ordered|);
    }
    assert |chunks| == |multiset(chunks)| == |multiset(ordered)| == |ordered|;
  }
}

/** The encrypted link: the locked senders of one side, the two ratchets and the ordered channel between
them, and the receive loop of the other side. */
module SecureLink {
  import opened Primitives
  import Epochs
  import Agreement
  import FifoLink
  import opened LinkStream

  /** Envelopes as the bytes they are sent as. */
  function Encoded(encode: Envelope -> Bytes, envs: seq<Envelope>): seq<Bytes> {
    seq(|envs|, i requires 0 <= i < |envs| => encode(envs[i]))
  }

  /** What the receiver decodes, up to the first byte string that is no envelope. */
  function Decoded(decode: Bytes -> Option<Envelope>, texts: seq<Bytes>): seq<Envelope> {
    if texts == [] || decode(texts[0]).None? then [] else [decode(texts[0]).value] + Decoded(decode, texts[1..])
  }

  lemma {:induction false} DecodedPrefix(encode: Envelope -> Bytes, decode: Bytes -> Option<Envelope>, envs: seq<Envelope>, texts: seq<Bytes>)
    requires forall e :: decode(encode(e)) == Some(e)
    requires texts <= Encoded(encode, envs)
    ensures |texts| <= |envs| && Decoded(decode, texts) == envs[..|texts|]
  {
    if texts != [] {
      assert texts[0] == encode(envs[0]);
      assert Encoded(encode, envs)[1..] == Encoded(encode, envs[1..]);
      DecodedPrefix(encode, decode, envs[1..], texts[1..]);
      assert envs[..|texts|] == [envs[0]] + envs[1..][..|texts| - 1];
    }
  }

  /** One side sends what its threads write, in an established conversation in which both sides speak as
      they like. At any time the peer has decoded a prefix of that; when the channel is empty, the lock
      free and no write failed, its receive loop reports exactly the calls made, in lock order. */
  lemma SecureStreamRecovered(
    encode: Envelope -> Bytes, decode: Bytes -> Option<Envelope>,
    y: Agreement.System, events: seq<FifoLink.Event>, p: Epochs.Party, acts: seq<Action>)
    requires forall e :: decode(encode(e)) == Some(e)
    requires Agreement.Established(y)
    requires FifoLink.CanFlow(FifoLink.Conversation(y, FifoLink.SILENT, FifoLink.SILENT), events)
    requires CanRun(IDLE, acts)
    requires FifoLink.Flow(FifoLink.Conversation(y, FifoLink.SILENT, FifoLink.SILENT), events).From(p).sent
          == Encoded(encode, Run(IDLE, acts).channel)
    ensures var pipe := FifoLink.Flow(FifoLink.Conversation(y, FifoLink.SILENT, FifoLink.SILENT), events).From(p);
      var l := Run(IDLE, acts);
      && AllGenuine(Jobs(l.order))
      && Decoded(decode, pipe.got) <= l.channel
      && (pipe.queue == [] && l.lock.None? && l.failed.None? ==> Dispatch(Decoded(decode, pipe.got)) == Report(Jobs(l.order)))
  {
    hide FifoLink.CanFlow, FifoLink.Flow, Agreement.Established, CanRun, Run, Dispatch, Report, Agreement.Opening;
    FifoLink.EverythingOpens(y, events, p, []);
    ConcurrentSendersRecovered(acts, 0);
    var l := Run(IDLE, acts);
    var c := FifoLink.Flow(FifoLink.Conversation(y, FifoLink.SILENT, FifoLink.SILENT), events);
    var pipe := c.From(p);
    assert pipe.got <= pipe.sent;
    DecodedPrefix(encode, decode, l.channel, pipe.got);
    if pipe.queue == [] {
      assert |FifoLink.Texts(c.y.log, pipe.queue)| == 0;
      assert l.channel[..|pipe.got|] == l.channel;
    }
  }
}

/** Compressing with deflate and decompressing with inflateBack. */
module ZlibRoundTrip {
  import opened MachineInts
  import opened SetSums
  import opened Deflate
  import opened DeflateStream
  import InflateSource
  import InflateStream
  import BitStream

  lemma OnePiece(bytes: seq<Byte>, bs: seq<InflateStream.Block>, text: seq<Byte>, wsize: nat)
    requires StreamOf(bytes, bs, text, wsize)
    ensures bytes != [] && InflateSource.NoneEmpty([bytes]) && BitStream.Join([bytes]) == bytes
  {
    hide InflateStream.BodyHere, InflateStream.StreamText;
    var pieces := [bytes];
    assert pieces[1..] == [];
    assert BitStream.Join(pieces) == bytes + BitStream.Join([]);
  }

  /** One call: more input, room for output, and how to flush. */
  datatype Feed = Feed(more: seq<Byte>, room: nat, flush: nat)

  /** All the input. */
  function Input(feeds: seq<Feed>): seq<Byte> {
    if feeds == [] then [] else Input(feeds[..|feeds| - 1]) + feeds[|feeds| - 1].more
  }

  lemma InputNext(feeds: seq<Feed>, k: nat)
    requires k < |feeds|
    ensures Input(feeds[..0]) == [] && Input(feeds[..k + 1]) == Input(feeds[..k]) + feeds[k].more
  {
    var part := feeds[..k + 1];
    assert part[..|part| - 1] == feeds[..k] && part[|part| - 1] == feeds[k];
  }

  /** Compresses with the fixed codes: any calls that do not finish, then calls that do until the end is reported. */
  method Compress(feeds: seq<Feed>, rooms: seq<nat>, level: nat, w_bits: nat, memLevel: nat, filtered: bool,
                  estimates: seq<nat>)
    returns (d: DeflateState)
    requires 1 <= level <= 9 && 9 <= w_bits <= 15 && 1 <= memLevel <= 9
    requires forall k :: 0 <= k < |feeds| ==> feeds[k].flush <= 5 && feeds[k].flush != Z_FINISH
    ensures d.Valid() && d.text == Input(feeds) && d.fixedOnly && d.finished && d.sender.pending == 0
    ensures d.HandedOn() && !d.match_available
    ensures d.w_size == Pow2(w_bits) && d.lit_bufsize == Pow2(memLevel + 6)
  {
    hide *;
    FlushModes();
    d := new DeflateState(level, w_bits, memLevel, filtered, true);
    d.SettledIs();
    InputNone(feeds);
    for k := 0 to |feeds|
      invariant d.Valid() && d.Settled() && !d.finished && d.fixedOnly && d.text + d.next_in == Input(feeds[..k])
      invariant d.w_size == Pow2(w_bits) && d.lit_bufsize == Pow2(memLevel + 6)
      invariant fresh(d) && fresh(d.window) && fresh(d.prev) && fresh(d.head) && fresh(d.sender)
      invariant fresh(d.sender.pending_buf)
    {
      ghost var before := d.text + d.next_in;
      d.SettledIs();
      d.Supply(feeds[k].more, feeds[k].room, estimates);
      d.SettledIs();
      InputNext(feeds, k);
      assert d.text + d.next_in == before + feeds[k].more;
      var status := d.Call(feeds[k].flush);
    }
    assert feeds[..|feeds|] == feeds;
    var rest, status := rooms, Z_OK;
    while status != Z_STREAM_END
      invariant d.Valid() && d.Settled() && d.fixedOnly && d.text + d.next_in == Input(feeds)
      invariant d.w_size == Pow2(w_bits) && d.lit_bufsize == Pow2(memLevel + 6)
      invariant (d.finished ==> d.next_in == []) && (status == Z_STREAM_END ==> d.finished && d.sender.pending == 0)
      invariant fresh(d) && fresh(d.window) && fresh(d.prev) && fresh(d.head) && fresh(d.sender)
      invariant fresh(d.sender.pending_buf)
      decreases if status == Z_STREAM_END then 0 else 1, if d.finished then 0 else 1, d.Left(), d.sender.pending
    {
      var room := if rest != [] && rest[0] > 0 then rest[0] else 1;
      rest := if rest == [] then [] else rest[1..];
      d.SettledIs();
      d.Supply([], room, estimates);
      d.SettledIs();
      label call:
      status := d.Call(Z_FINISH);
      d.NearerIs@call();
    }
    d.SettledIs();
    d.HandedOnIs();
  }

  lemma InputNone(feeds: seq<Feed>)
    ensures Input(feeds[..0]) == []
  {
  }

  lemma InTimeSizes(w_bits: nat, memLevel: nat)
    requires 9 <= w_bits <= 15 && 1 <= memLevel <= 9
    ensures Pow2(9) == 512 && Pow2(memLevel + 6) == 2 * Pow2(memLevel + 5)
  {
    assert Pow2(9) == 512;
  }

  /** Whatever the input, the level, the sizes, and however the calls, their flushes and the room for output are
      measured out: with the fixed codes deflate ends, and inflateBack gives the input back if the tokens of every block
      sent with these codes were read before the output came to them; else a token was lost. None is with the smallest
      window, nor with an input of half a buffer. */
  method RoundTrip(feeds: seq<Feed>, rooms: seq<nat>, level: nat, w_bits: nat, memLevel: nat, filtered: bool,
                   estimates: seq<nat>)
    returns (out: seq<Byte>, lost: bool, ghost coded: seq<CodedBlock>)
    requires 1 <= level <= 9 && 9 <= w_bits <= 15 && 1 <= memLevel <= 9
    requires forall k :: 0 <= k < |feeds| ==> feeds[k].flush <= 5 && feeds[k].flush != Z_FINISH
    ensures !lost ==> out == Input(feeds)
    ensures lost <==> !AllInTime(Pow2(memLevel + 6), coded)
    ensures Fitting(Pow2(memLevel + 6), Pow2(w_bits) - 262, coded)
    ensures w_bits == 9 || |Input(feeds)| <= Pow2(memLevel + 5) ==> !lost
  {
    hide *;
    out := [];
    var d := Compress(feeds, rooms, level, w_bits, memLevel, filtered, estimates);
    lost, coded := d.lost, d.coded;
    d.LostOnly();
    InTimeSizes(w_bits, memLevel);
    if !lost {
      d.StreamSent();
      OnePiece(d.sender.out, d.blocks, d.text, d.w_size);
      var window := new Byte[d.w_size];
      var ret;
      ret, out := Unpack([d.sender.out], window, d.blocks, d.text);
    }
  }
}

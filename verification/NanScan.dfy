/** The social channel scan parameters: three TLVs of one packed word each. */
module NanScan {
  import opened Words
  import opened NanTlv
  import opened NanMessage
  import opened NanTypes

  /** One dwell time and scan period per social channel. */
  datatype ScanParamsRaw = ScanParams(on: bool, dwell: seq<byte>, period: seq<u16>)
  type ScanParams = p: ScanParamsRaw | |p.dwell| == 3 && |p.period| == 3
    witness ScanParamsRaw.ScanParams(false, [0, 0, 0], [0, 0, 0])

  /** The channel numbers of the 2.4 GHz, low and high 5 GHz bands. */
  const CHANNELS: seq<byte> := [6, 44, 149]

  /** fillNanSocialChannelParamVal for one channel: period, dwell and channel packed into a little-endian word. */
  function Word(p: ScanParams, i: nat): (bytes: seq<byte>)
    requires i < 3
    ensures |bytes| == 4
  {
    [CHANNELS[i], p.dwell[i]] + TwoBytes(p.period[i])
  }

  /** As a number the word holds the channel below the dwell time below the scan period. */
  lemma WordValue(p: ScanParams, i: nat)
    requires i < 3
    ensures var channel: int, dwell: int, period: int := [6, 44, 149][i], p.dwell[i], p.period[i];
            FromFour(Word(p, i)) == channel + 256 * dwell + 65536 * period
  {
    assert Word(p, i)[0] == CHANNELS[i] && Word(p, i)[1] == p.dwell[i];
    assert Word(p, i)[2] == TwoBytes(p.period[i])[0] && Word(p, i)[3] == TwoBytes(p.period[i])[1];
  }

  function ScanSize(p: ScanParams): nat {
    if p.on then SOCIAL_CHANNELS * (TLV_HEADER + 4) else 0
  }

  function ScanTlvs(p: ScanParams): seq<Tlv> {
    if p.on then seq(3, i requires 0 <= i < 3 => Tlv(SOCIAL_CHANNEL_SCAN_PARAMS, Word(p, i))) else []
  }

  method AddScan(b: TlvBuffer, p: ScanParams)
    requires b.Valid() && b.at + ScanSize(p) <= b.buf.Length
    modifies b`at, b`done, b.buf
    ensures b.Valid() && b.at == old(b.at) + ScanSize(p) && b.done == old(b.done) + ScanTlvs(p)
  {
    if p.on {
      var i := 0;
      while i < SOCIAL_CHANNELS
        invariant 0 <= i <= 3 && b.Valid()
        invariant b.at == old(b.at) + i * 8
        invariant b.done == old(b.done) + ScanTlvs(p)[..i]
      {
        b.Add(Field(true, Word(p, i)), SOCIAL_CHANNEL_SCAN_PARAMS);
        assert ScanTlvs(p)[..i + 1] == ScanTlvs(p)[..i] + [ScanTlvs(p)[i]];
        i := i + 1;
      }
      assert ScanTlvs(p)[..3] == ScanTlvs(p);
    }
  }
}

/** The bytes of a gathering: the fixed-offset parse and the two edits handlers make to raw bytes. */
module GatheringCodec {
  import opened Bytes
  import opened Options

  datatype Harmonix = Harmonix(
    public: u8, prop0: u32, prop1: u32, prop2: u32, prop3: u32, prop4: u32, prop5: u32,
    prop6: u32, prop7: u32, prop8: u32, prop9: u32, prop10: u32, buffer: u32)

  datatype Gathering = Gathering(
    idMyself: u32, idOwner: u32, idHost: u32, minParticipants: u16, maxParticipants: u16,
    participationPolicy: u32, policyArgument: u32, flags: u32, state: u32,
    descriptionCount: u32, descriptionString: u8, harmonix: Harmonix)

  datatype Error = InsufficientData

  const SIZE := 86
  const PUBLIC_OFFSET := 37
  const STATE_OFFSET := 0x1C

  function U16At(data: seq<byte>, k: nat): u16
    requires k + 2 <= |data|
  {
    LE16(data[k..k + 2])
  }

  function U32At(data: seq<byte>, k: nat): u32
    requires k + 4 <= |data|
  {
    LE32(data[k..k + 4])
  }

  function HarmonixPart(data: seq<byte>): Harmonix
    requires |data| >= SIZE
  {
    Harmonix(
      data[PUBLIC_OFFSET], U32At(data, 38), U32At(data, 42), U32At(data, 46), U32At(data, 50),
      U32At(data, 54), U32At(data, 58), U32At(data, 62), U32At(data, 66), U32At(data, 70),
      U32At(data, 74), U32At(data, 78), U32At(data, 82))
  }

  function Deserialize(data: seq<byte>): Result<Gathering, Error> {
    if |data| < SIZE then Err(InsufficientData)
    else
      Ok(Gathering(
           U32At(data, 0), U32At(data, 4), U32At(data, 8), U16At(data, 12), U16At(data, 14), U32At(data, 16),
           U32At(data, 20), U32At(data, 24), U32At(data, 28), U32At(data, 32), data[36], HarmonixPart(data)))
  }

  // ---------- the layout ----------

  lemma Restored16(data: seq<byte>, k: nat)
    requires k + 2 <= |data|
    ensures data[k..k + 2] == PutLittleEndian(U16At(data, k), 2)
  {
    PutReadLE16(data[k..k + 2], U16At(data, k));
  }

  lemma Restored32(data: seq<byte>, k: nat)
    requires k + 4 <= |data|
    ensures data[k..k + 4] == PutLittleEndian(U32At(data, k), 4)
  {
    PutReadLE32(data[k..k + 4], U32At(data, k));
  }

  lemma ThreeWordsAndTwoHalves(d: seq<byte>)
    requires |d| >= 16
    ensures d[..16] == d[0..4] + d[4..8] + d[8..12] + d[12..14] + d[14..16]
  {
  }

  lemma FiveWordsAndTwo(d: seq<byte>)
    requires |d| >= 38
    ensures d[16..38] == d[16..20] + d[20..24] + d[24..28] + d[28..32] + d[32..36] + d[36..38]
  {
  }

  lemma SixWords(d: seq<byte>, k: nat)
    requires k + 24 <= |d|
    ensures d[k..k + 24]
         == d[k..k + 4] + d[k + 4..k + 8] + d[k + 8..k + 12] + d[k + 12..k + 16] + d[k + 16..k + 20] + d[k + 20..k + 24]
  {
  }

  /** The first 16 bytes of a gathering are its ids and limits, little-endian, in this order. */
  lemma HeadLayout(data: seq<byte>, g: Gathering)
    requires Deserialize(data) == Ok(g)
    ensures data[..16] == PutLittleEndian(g.idMyself, 4) + PutLittleEndian(g.idOwner, 4) + PutLittleEndian(g.idHost, 4)
                          + PutLittleEndian(g.minParticipants, 2) + PutLittleEndian(g.maxParticipants, 2)
  {
    Restored32(data, 0);
    Restored32(data, 4);
    Restored32(data, 8);
    Restored16(data, 12);
    Restored16(data, 14);
    ThreeWordsAndTwoHalves(data);
  }

  /** The next 22 are its policy, flags, state, description and public flag. */
  lemma MiddleLayout(data: seq<byte>, g: Gathering)
    requires Deserialize(data) == Ok(g)
    ensures data[16..38] == PutLittleEndian(g.participationPolicy, 4) + PutLittleEndian(g.policyArgument, 4)
                            + PutLittleEndian(g.flags, 4) + PutLittleEndian(g.state, 4)
                            + PutLittleEndian(g.descriptionCount, 4) + [g.descriptionString, g.harmonix.public]
  {
    Restored32(data, 16);
    Restored32(data, 20);
    Restored32(data, 24);
    Restored32(data, 28);
    Restored32(data, 32);
    assert data[36..38] == [g.descriptionString, g.harmonix.public];
    FiveWordsAndTwo(data);
  }

  /** The next 48 are its eleven properties and the buffer; what follows is not looked at. */
  lemma PropertyLayout(data: seq<byte>, g: Gathering)
    requires Deserialize(data) == Ok(g)
    ensures |data| >= 86
    ensures var h := g.harmonix;
            data[38..62] == PutLittleEndian(h.prop0, 4) + PutLittleEndian(h.prop1, 4) + PutLittleEndian(h.prop2, 4)
                            + PutLittleEndian(h.prop3, 4) + PutLittleEndian(h.prop4, 4) + PutLittleEndian(h.prop5, 4)
  {
    SixWords(data, 38);
    Restored32(data, 38);
    Restored32(data, 42);
    Restored32(data, 46);
    Restored32(data, 50);
    Restored32(data, 54);
    Restored32(data, 58);
  }

  lemma LastLayout(data: seq<byte>, g: Gathering)
    requires Deserialize(data) == Ok(g)
    ensures var h := g.harmonix;
            data[62..86] == PutLittleEndian(h.prop6, 4) + PutLittleEndian(h.prop7, 4) + PutLittleEndian(h.prop8, 4)
                            + PutLittleEndian(h.prop9, 4) + PutLittleEndian(h.prop10, 4) + PutLittleEndian(h.buffer, 4)
  {
    SixWords(data, 62);
    Restored32(data, 62);
    Restored32(data, 66);
    Restored32(data, 70);
    Restored32(data, 74);
    Restored32(data, 78);
    Restored32(data, 82);
  }

  // ---------- editing raw bytes ----------

  /** Contents with `patch` written over the bytes at `offset`. */
  function Overwritten(data: seq<byte>, offset: nat, patch: seq<byte>): (r: seq<byte>)
    requires offset + |patch| <= |data|
    ensures |r| == |data|
  {
    data[..offset] + patch + data[offset + |patch|..]
  }

  function WithState(contents: seq<byte>, state: u32): (r: seq<byte>)
    requires |contents| >= STATE_OFFSET + 4
    ensures |r| == |contents|
  {
    Overwritten(contents, STATE_OFFSET, PutLittleEndian(state, 4))
  }

  /** What matchmaking sends: the owner and the host replaced by the creator's PID. */
  function WithOwner(contents: seq<byte>, pid: u32): seq<byte>
    requires |contents| >= 12
  {
    contents[0..4] + PutLittleEndian(pid, 4) + PutLittleEndian(pid, 4) + contents[12..]
  }

  /** SetState's four byte stores, in place. */
  method PatchState(contents: array<byte>, state: u32)
    requires contents.Length >= STATE_OFFSET + 4
    modifies contents
    ensures contents[..] == WithState(old(contents[..]), state)
  {
    Put32(state);
    contents[0x1C] := state % 256;
    contents[0x1D] := state / 0x100 % 256;
    contents[0x1E] := state / 0x1_0000 % 256;
    contents[0x1F] := state / 0x100_0000 % 256;
    assert contents[..0x1C] == old(contents[..0x1C]);
    assert contents[0x20..] == old(contents[0x20..]);
    assert contents[..] == contents[..0x1C] + contents[0x1C..0x20] + contents[0x20..];
  }

  /** An edit leaves every slice beside it as it was. */
  lemma BesideEdit(data: seq<byte>, offset: nat, patch: seq<byte>, k: nat, width: nat)
    requires offset + |patch| <= |data| && k + width <= |data|
    requires k + width <= offset || offset + |patch| <= k
    ensures Overwritten(data, offset, patch)[k..k + width] == data[k..k + width]
  {
    var r := Overwritten(data, offset, patch);
    assert forall i | 0 <= i < offset :: r[i] == data[i];
    assert forall i | offset + |patch| <= i < |data| :: r[i] == data[i];
  }

  /** An edit inside the first 36 bytes leaves everything from the description on as it was. */
  lemma TailKept(data: seq<byte>, offset: nat, patch: seq<byte>)
    requires |data| >= SIZE && offset + |patch| <= 32
    ensures var r := Overwritten(data, offset, patch);
            HarmonixPart(r) == HarmonixPart(data) && U32At(r, 32) == U32At(data, 32) && r[36] == data[36]
  {
    BesideEdit(data, offset, patch, 36, 1);
    BesideEdit(data, offset, patch, 37, 1);
    assert Overwritten(data, offset, patch)[36..37][0] == data[36..37][0];
    assert Overwritten(data, offset, patch)[37..38][0] == data[37..38][0];
    BesideEdit(data, offset, patch, 32, 4);
    BesideEdit(data, offset, patch, 38, 4);
    BesideEdit(data, offset, patch, 42, 4);
    BesideEdit(data, offset, patch, 46, 4);
    BesideEdit(data, offset, patch, 50, 4);
    BesideEdit(data, offset, patch, 54, 4);
    BesideEdit(data, offset, patch, 58, 4);
    BesideEdit(data, offset, patch, 62, 4);
    BesideEdit(data, offset, patch, 66, 4);
    BesideEdit(data, offset, patch, 70, 4);
    BesideEdit(data, offset, patch, 74, 4);
    BesideEdit(data, offset, patch, 78, 4);
    BesideEdit(data, offset, patch, 82, 4);
  }

  /** An edit on one side of bytes 12 to 27 leaves the fields there as they were. */
  lemma MiddleKept(data: seq<byte>, offset: nat, patch: seq<byte>)
    requires |data| >= SIZE && offset + |patch| <= 32 && (offset + |patch| <= 12 || 28 <= offset)
    ensures var r := Overwritten(data, offset, patch);
            && U16At(r, 12) == U16At(data, 12) && U16At(r, 14) == U16At(data, 14) && U32At(r, 16) == U32At(data, 16)
            && U32At(r, 20) == U32At(data, 20) && U32At(r, 24) == U32At(data, 24)
  {
    BesideEdit(data, offset, patch, 12, 2);
    BesideEdit(data, offset, patch, 14, 2);
    BesideEdit(data, offset, patch, 16, 4);
    BesideEdit(data, offset, patch, 20, 4);
    BesideEdit(data, offset, patch, 24, 4);
  }

  /** Patching the state of the bytes is setting the state of the gathering, and nothing else. */
  lemma PatchCommutesWithParse(contents: seq<byte>, state: u32)
    requires |contents| >= SIZE
    ensures Deserialize(WithState(contents, state)) == Ok(Deserialize(contents).value.(state := state))
  {
    var patch := PutLittleEndian(state, 4);
    PatchedState(contents, state);
    TailKept(contents, STATE_OFFSET, patch);
    BesideEdit(contents, STATE_OFFSET, patch, 0, 4);
    BesideEdit(contents, STATE_OFFSET, patch, 4, 4);
    BesideEdit(contents, STATE_OFFSET, patch, 8, 4);
    MiddleKept(contents, STATE_OFFSET, patch);
  }

  lemma PatchedState(contents: seq<byte>, state: u32)
    requires |contents| >= SIZE
    ensures U32At(WithState(contents, state), STATE_OFFSET) == state
  {
    assert WithState(contents, state)[28..32] == PutLittleEndian(state, 4);
    ReadPut32(state);
  }

  lemma SpliceHead(contents: seq<byte>, pid: u32)
    requires |contents| >= SIZE
    ensures var patch := PutLittleEndian(pid, 4) + PutLittleEndian(pid, 4);
            var r := WithOwner(contents, pid);
            r == Overwritten(contents, 4, patch) && |r| == |contents| && U32At(r, 4) == pid && U32At(r, 8) == pid
  {
    var four := PutLittleEndian(pid, 4);
    var r := WithOwner(contents, pid);
    assert r == Overwritten(contents, 4, four + four);
    assert r[4..8] == four && r[8..12] == four;
    ReadPut32(pid);
  }

  /** The splice parses to the same gathering, owned and hosted by the creator; the length is kept. */
  lemma SpliceCommutesWithParse(contents: seq<byte>, pid: u32)
    requires |contents| >= SIZE
    ensures |WithOwner(contents, pid)| == |contents|
    ensures Deserialize(WithOwner(contents, pid)) == Ok(Deserialize(contents).value.(idOwner := pid, idHost := pid))
  {
    var patch := PutLittleEndian(pid, 4) + PutLittleEndian(pid, 4);
    SpliceHead(contents, pid);
    TailKept(contents, 4, patch);
    BesideEdit(contents, 4, patch, 0, 4);
    MiddleKept(contents, 4, patch);
    BesideEdit(contents, 4, patch, 28, 4);
  }
}

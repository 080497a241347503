/** The PS3 ticket codec: a header, a body, and a footer that ends in a signature. */
module NPTicket {
  import opened Bytes
  import opened Options

  datatype Footer = Footer(
    cipherIDType: u16, cipherIDSize: u16, cipherID: u32,
    signatureType: u16, signatureSize: u16, signature: seq<byte>)

  datatype Ticket = Ticket(
    size1: u32, size2: u32, version: u8, unknown: u8, unknown2: u8, unknown3: u8,
    ticketSize: u32, bodyType: u16, bodySize: u16, body: seq<byte>,
    footerType: u16, footerSize: u16, footer: Footer)

  datatype Error =
    | TooShort | BodyPastEnd | FooterHeaderPastEnd | FooterPastEnd | FooterTooShort | SignaturePastFooter

  // ---------- the writer ----------

  function FooterHead(f: Footer): (b: seq<byte>)
    ensures |b| == 12
  {
    PutBigEndian(f.cipherIDType, 2) + PutBigEndian(f.cipherIDSize, 2) + PutBigEndian(f.cipherID, 4)
    + PutBigEndian(f.signatureType, 2) + PutBigEndian(f.signatureSize, 2)
  }

  function Head(t: Ticket): (b: seq<byte>)
    ensures |b| == 20
  {
    PutLittleEndian(t.size1, 4) + PutLittleEndian(t.size2, 4)
    + [t.version, t.unknown, t.unknown2, t.unknown3]
    + PutBigEndian(t.ticketSize, 4) + PutBigEndian(t.bodyType, 2) + PutBigEndian(t.bodySize, 2)
  }

  function FooterFrame(t: Ticket): (b: seq<byte>)
    ensures |b| == 4
  {
    PutBigEndian(t.footerType, 2) + PutBigEndian(t.footerSize, 2)
  }

  function Encoding(t: Ticket): seq<byte> {
    Head(t) + t.body + FooterFrame(t) + FooterHead(t.footer) + t.footer.signature
  }

  method FooterBytes(f: Footer) returns (buf: seq<byte>)
    ensures buf == FooterHead(f) + f.signature
  {
    buf := [];
    buf := buf + PutBigEndian(f.cipherIDType, 2);
    buf := buf + PutBigEndian(f.cipherIDSize, 2);
    buf := buf + PutBigEndian(f.cipherID, 4);
    buf := buf + PutBigEndian(f.signatureType, 2);
    buf := buf + PutBigEndian(f.signatureSize, 2);
    assert buf == FooterHead(f);
    buf := buf + f.signature;
  }

  method TicketBytes(t: Ticket) returns (buf: seq<byte>)
    ensures buf == Encoding(t)
  {
    buf := PutLittleEndian(t.size1, 4);
    buf := buf + PutLittleEndian(t.size2, 4);
    buf := buf + [t.version];
    buf := buf + [t.unknown];
    buf := buf + [t.unknown2];
    buf := buf + [t.unknown3];
    buf := buf + PutBigEndian(t.ticketSize, 4);
    buf := buf + PutBigEndian(t.bodyType, 2);
    buf := buf + PutBigEndian(t.bodySize, 2);
    assert buf == Head(t);
    buf := buf + t.body;
    buf := buf + PutBigEndian(t.footerType, 2);
    buf := buf + PutBigEndian(t.footerSize, 2);
    assert buf == Head(t) + t.body + FooterFrame(t);
    var footerBytes := FooterBytes(t.footer);
    buf := buf + footerBytes;
    assert buf == Encoding(t);
  }

  // ---------- the reader ----------

  function ParseFooter(b: seq<byte>): Result<Footer, Error> {
    if |b| < 12 then Err(FooterTooShort)
    else
      var signatureSize := BE16(b[10..12]);
      if 12 + signatureSize > |b| then Err(SignaturePastFooter)
      else Ok(Footer(BE16(b[..2]), BE16(b[2..4]), BE32(b[4..8]), BE16(b[8..10]), signatureSize,
                     b[12..12 + signatureSize]))
  }

  function Parse(data: seq<byte>): Result<Ticket, Error> {
    if |data| < 20 then Err(TooShort)
    else
      var bodySize := BE16(data[18..20]);
      var e := 20 + bodySize;
      if e > |data| then Err(BodyPastEnd)
      else if e + 4 > |data| then Err(FooterHeaderPastEnd)
      else
        var footerSize := BE16(data[e + 2..e + 4]);
        if e + 4 + footerSize > |data| then Err(FooterPastEnd)
        else
          match ParseFooter(data[e + 4..e + 4 + footerSize])
          case Err(error) => Err(error)
          case Ok(footer) =>
            Ok(Ticket(LE32(data[..4]), LE32(data[4..8]), data[8], data[9], data[10], data[11],
                      BE32(data[12..16]), BE16(data[16..18]), bodySize, data[20..e],
                      BE16(data[e..e + 2]), footerSize, footer))
  }

  method Deserialize(data: seq<byte>) returns (r: Result<Ticket, Error>)
    ensures r == Parse(data)
  {
    if |data| < 20 { return Err(TooShort); }
    var size1 := LE32(data[..4]);
    var size2 := LE32(data[4..8]);
    var version, unknown, unknown2, unknown3 := data[8], data[9], data[10], data[11];
    var ticketSize := BE32(data[12..16]);
    var bodyType := BE16(data[16..18]);
    var bodySize: int := BE16(data[18..20]);

    var bodyEnd := 20 + bodySize;
    if bodyEnd > |data| { return Err(BodyPastEnd); }
    var body := data[20..bodyEnd];

    var footerStart := bodyEnd;
    if footerStart + 4 > |data| { return Err(FooterHeaderPastEnd); }
    var footerType := BE16(data[footerStart..footerStart + 2]);
    var footerSize := BE16(data[footerStart + 2..footerStart + 4]);

    var footerDataStart := footerStart + 4;
    var footerDataEnd := footerDataStart + footerSize;
    if footerDataEnd > |data| { return Err(FooterPastEnd); }
    var footerData := data[footerDataStart..footerDataEnd];

    if |footerData| < 12 { return Err(FooterTooShort); }
    var cipherIDType := BE16(footerData[..2]);
    var cipherIDSize := BE16(footerData[2..4]);
    var cipherID := BE32(footerData[4..8]);
    var signatureType := BE16(footerData[8..10]);
    var signatureSize: int := BE16(footerData[10..12]);
    var sigEnd := 12 + signatureSize;
    if sigEnd > |footerData| { return Err(SignaturePastFooter); }
    var footer := Footer(cipherIDType, cipherIDSize, cipherID, signatureType, signatureSize, footerData[12..sigEnd]);
    r := Ok(Ticket(size1, size2, version, unknown, unknown2, unknown3, ticketSize, bodyType, bodySize, body,
                   footerType, footerSize, footer));
  }

  // ---------- the two directions ----------

  /** Where the signature of a parsed ticket ends in the bytes it came from. */
  function SignatureEnd(t: Ticket): nat {
    20 + t.bodySize + 4 + 12 + t.footer.signatureSize
  }

  predicate SizesMatch(t: Ticket) {
    && t.bodySize == |t.body|
    && t.footer.signatureSize == |t.footer.signature|
    && t.footerSize == 12 + |t.footer.signature|
  }

  lemma FivePieces(b: seq<byte>)
    requires |b| >= 12
    ensures b[..12] == b[..2] + b[2..4] + b[4..8] + b[8..10] + b[10..12]
  {
  }

  lemma SixPieces(b: seq<byte>)
    requires |b| >= 20
    ensures b[..20] == b[..4] + b[4..8] + b[8..12] + b[12..16] + b[16..18] + b[18..20]
  {
  }

  lemma FooterHeadOfBytes(b: seq<byte>, f: Footer)
    requires |b| >= 12 && f.cipherIDType == BE16(b[..2]) && f.cipherIDSize == BE16(b[2..4])
    requires f.cipherID == BE32(b[4..8]) && f.signatureType == BE16(b[8..10]) && f.signatureSize == BE16(b[10..12])
    ensures FooterHead(f) == b[..12]
  {
    PutReadBE16(b[..2], f.cipherIDType);
    PutReadBE16(b[2..4], f.cipherIDSize);
    PutReadBE32(b[4..8], f.cipherID);
    PutReadBE16(b[8..10], f.signatureType);
    PutReadBE16(b[10..12], f.signatureSize);
    FivePieces(b);
  }

  lemma FooterHeadOfParsed(b: seq<byte>, f: Footer)
    requires ParseFooter(b) == Ok(f)
    ensures FooterHead(f) + f.signature == b[..12 + f.signatureSize]
  {
    FooterHeadOfBytes(b, f);
    assert b[..12] + b[12..12 + f.signatureSize] == b[..12 + f.signatureSize];
  }

  lemma HeadOfBytes(data: seq<byte>, t: Ticket)
    requires |data| >= 20 && t.size1 == LE32(data[..4]) && t.size2 == LE32(data[4..8])
    requires data[8..12] == [t.version, t.unknown, t.unknown2, t.unknown3]
    requires t.ticketSize == BE32(data[12..16]) && t.bodyType == BE16(data[16..18]) && t.bodySize == BE16(data[18..20])
    ensures Head(t) == data[..20]
  {
    PutReadLE32(data[..4], t.size1);
    PutReadLE32(data[4..8], t.size2);
    PutReadBE32(data[12..16], t.ticketSize);
    PutReadBE16(data[16..18], t.bodyType);
    PutReadBE16(data[18..20], t.bodySize);
    SixPieces(data);
  }

  lemma HeadOfParsed(data: seq<byte>, t: Ticket)
    requires Parse(data) == Ok(t)
    ensures Head(t) == data[..20]
  {
    HeadOfBytes(data, t);
  }

  lemma FooterFrameOfBytes(data: seq<byte>, e: nat, t: Ticket)
    requires e + 4 <= |data| && t.footerType == BE16(data[e..e + 2]) && t.footerSize == BE16(data[e + 2..e + 4])
    ensures FooterFrame(t) == data[e..e + 4]
  {
    PutReadBE16(data[e..e + 2], t.footerType);
    PutReadBE16(data[e + 2..e + 4], t.footerSize);
    assert data[e..e + 4] == data[e..e + 2] + data[e + 2..e + 4];
  }

  lemma FooterFrameOfParsed(data: seq<byte>, t: Ticket)
    requires Parse(data) == Ok(t)
    ensures FooterFrame(t) == data[20 + t.bodySize..24 + t.bodySize]
  {
    FooterFrameOfBytes(data, 20 + t.bodySize, t);
  }

  /** Writing an accepted ticket gives back exactly the bytes it was read from, up to its signature's end. */
  lemma EncodingOfParsed(data: seq<byte>, t: Ticket)
    requires Parse(data) == Ok(t)
    ensures SignatureEnd(t) <= |data|
    ensures Encoding(t) == data[..SignatureEnd(t)]
  {
    var e := 20 + t.bodySize;
    var footerData := data[e + 4..e + 4 + t.footerSize];
    HeadOfParsed(data, t);
    FooterFrameOfParsed(data, t);
    FooterHeadOfParsed(footerData, t.footer);
    EncodingOfPieces(data, t, e, 12 + t.footer.signatureSize, footerData);
  }

  lemma EncodingOfPieces(data: seq<byte>, t: Ticket, e: nat, k: nat, footerData: seq<byte>)
    requires 20 <= e && e + 4 + |footerData| <= |data| && k <= |footerData|
    requires data[..20] == Head(t) && data[20..e] == t.body && data[e..e + 4] == FooterFrame(t)
    requires footerData == data[e + 4..e + 4 + |footerData|]
    requires footerData[..k] == FooterHead(t.footer) + t.footer.signature
    ensures Encoding(t) == data[..e + 4 + k]
  {
    assert footerData[..k] == data[e + 4..e + 4 + k];
    assert data[..e + 4 + k] == data[..20] + data[20..e] + data[e..e + 4] + data[e + 4..e + 4 + k];
    assert Encoding(t) == Head(t) + t.body + FooterFrame(t) + (FooterHead(t.footer) + t.footer.signature);
  }

  lemma ParseFooterOfEncoding(f: Footer)
    requires f.signatureSize == |f.signature|
    ensures ParseFooter(FooterHead(f) + f.signature) == Ok(f)
  {
    var b := FooterHead(f) + f.signature;
    assert b[..2] == PutBigEndian(f.cipherIDType, 2);
    assert b[2..4] == PutBigEndian(f.cipherIDSize, 2);
    assert b[4..8] == PutBigEndian(f.cipherID, 4);
    assert b[8..10] == PutBigEndian(f.signatureType, 2);
    assert b[10..12] == PutBigEndian(f.signatureSize, 2);
    ReadPut16(f.cipherIDType);
    ReadPut16(f.cipherIDSize);
    ReadPut32(f.cipherID);
    ReadPut16(f.signatureType);
    ReadPut16(f.signatureSize);
    assert b[12..12 + f.signatureSize] == f.signature;
  }

  lemma HeadFields(t: Ticket, data: seq<byte>)
    requires |data| >= 20 && data[..20] == Head(t)
    ensures LE32(data[..4]) == t.size1 && LE32(data[4..8]) == t.size2
    ensures data[8] == t.version && data[9] == t.unknown && data[10] == t.unknown2 && data[11] == t.unknown3
    ensures BE32(data[12..16]) == t.ticketSize && BE16(data[16..18]) == t.bodyType && BE16(data[18..20]) == t.bodySize
  {
    var h := data[..20];
    assert data[..4] == h[..4] == PutLittleEndian(t.size1, 4);
    assert data[4..8] == h[4..8] == PutLittleEndian(t.size2, 4);
    assert h[8..12] == [t.version, t.unknown, t.unknown2, t.unknown3];
    assert data[8] == h[8..12][0] && data[9] == h[8..12][1] && data[10] == h[8..12][2] && data[11] == h[8..12][3];
    assert data[12..16] == h[12..16] == PutBigEndian(t.ticketSize, 4);
    assert data[16..18] == h[16..18] == PutBigEndian(t.bodyType, 2);
    assert data[18..20] == h[18..20] == PutBigEndian(t.bodySize, 2);
    ReadPut32(t.size1);
    ReadPut32(t.size2);
    ReadPut32(t.ticketSize);
    ReadPut16(t.bodyType);
    ReadPut16(t.bodySize);
  }

  lemma ParseOfEncoding(t: Ticket)
    requires SizesMatch(t)
    ensures Parse(Encoding(t)) == Ok(t)
  {
    EncodingParts(t);
    HeadFields(t, Encoding(t));
    FrameFields(t, Encoding(t), 20 + |t.body|);
    ParseFooterOfEncoding(t.footer);
  }

  lemma EncodingParts(t: Ticket)
    requires SizesMatch(t)
    ensures var data, e := Encoding(t), 20 + |t.body|;
            && |data| == e + 4 + t.footerSize
            && data[..20] == Head(t) && data[20..e] == t.body && data[e..e + 4] == FooterFrame(t)
            && data[e + 4..e + 4 + t.footerSize] == FooterHead(t.footer) + t.footer.signature
  {
  }

  lemma FrameFields(t: Ticket, data: seq<byte>, e: nat)
    requires e + 4 <= |data| && data[e..e + 4] == FooterFrame(t)
    ensures BE16(data[e..e + 2]) == t.footerType && BE16(data[e + 2..e + 4]) == t.footerSize
  {
    assert data[e..e + 2] == FooterFrame(t)[..2] == PutBigEndian(t.footerType, 2);
    assert data[e + 2..e + 4] == FooterFrame(t)[2..] == PutBigEndian(t.footerSize, 2);
    ReadPut16(t.footerType);
    ReadPut16(t.footerSize);
  }

  /** The header's and the two frames' fields in the bytes, counted from the start and from the end `e` of the body. */
  lemma TicketLayout(t: Ticket)
    ensures var data, e := Encoding(t), 20 + |t.body|;
            && |data| == e + 16 + |t.footer.signature|
            && LE32(data[..4]) == t.size1 && LE32(data[4..8]) == t.size2
            && data[8] == t.version && data[9] == t.unknown && data[10] == t.unknown2 && data[11] == t.unknown3
            && BE32(data[12..16]) == t.ticketSize && BE16(data[16..18]) == t.bodyType
            && BE16(data[18..20]) == t.bodySize && data[20..e] == t.body
            && BE16(data[e..e + 2]) == t.footerType && BE16(data[e + 2..e + 4]) == t.footerSize
  {
    var data, e := Encoding(t), 20 + |t.body|;
    assert data[..20] == Head(t);
    HeadFields(t, data);
    assert data[e..e + 4] == FooterFrame(t);
    FrameFields(t, data, e);
  }

  /** The footer's fields in the bytes, from its start `f`; the signature is the rest. */
  lemma FooterLayout(t: Ticket)
    ensures var data, f := Encoding(t), 24 + |t.body|;
            && |data| >= f + 12
            && BE16(data[f..f + 2]) == t.footer.cipherIDType && BE16(data[f + 2..f + 4]) == t.footer.cipherIDSize
            && BE32(data[f + 4..f + 8]) == t.footer.cipherID && BE16(data[f + 8..f + 10]) == t.footer.signatureType
            && BE16(data[f + 10..f + 12]) == t.footer.signatureSize && data[f + 12..] == t.footer.signature
  {
    var data, f := Encoding(t), 24 + |t.body|;
    assert data[f..f + 12] == FooterHead(t.footer);
    FooterHeadFields(t.footer, data, f);
  }

  lemma FooterHeadFields(f: Footer, data: seq<byte>, k: nat)
    requires k + 12 <= |data| && data[k..k + 12] == FooterHead(f)
    ensures BE16(data[k..k + 2]) == f.cipherIDType && BE16(data[k + 2..k + 4]) == f.cipherIDSize
    ensures BE32(data[k + 4..k + 8]) == f.cipherID && BE16(data[k + 8..k + 10]) == f.signatureType
    ensures BE16(data[k + 10..k + 12]) == f.signatureSize
  {
    var h := data[k..k + 12];
    SliceOfSlice(data, k, 12, 0, 2);
    SliceOfSlice(data, k, 12, 2, 4);
    SliceOfSlice(data, k, 12, 4, 8);
    SliceOfSlice(data, k, 12, 8, 10);
    SliceOfSlice(data, k, 12, 10, 12);
    assert h[0..2] == PutBigEndian(f.cipherIDType, 2);
    assert h[2..4] == PutBigEndian(f.cipherIDSize, 2);
    assert h[4..8] == PutBigEndian(f.cipherID, 4);
    assert h[8..10] == PutBigEndian(f.signatureType, 2);
    assert h[10..12] == PutBigEndian(f.signatureSize, 2);
    ReadPut16(f.cipherIDType);
    ReadPut16(f.cipherIDSize);
    ReadPut32(f.cipherID);
    ReadPut16(f.signatureType);
    ReadPut16(f.signatureSize);
  }

  /** Data is accepted if it is long enough for the sizes it states; otherwise the first that does not fit is told. */
  lemma AcceptedIff(data: seq<byte>)
    ensures Parse(data) == Err(TooShort) <==> |data| < 20
    ensures |data| >= 20 ==>
      var e := 20 + BE16(data[18..20]);
      && (Parse(data) == Err(BodyPastEnd) <==> |data| < e)
      && (Parse(data) == Err(FooterHeaderPastEnd) <==> e <= |data| < e + 4)
      && (|data| >= e + 4 ==> FooterAcceptedIff(data, e + 4, BE16(data[e + 2..e + 4])))
  {
    if |data| >= 20 {
      var e := 20 + BE16(data[18..20]);
      if |data| >= e + 4 {
        FooterOutcome(data, e + 4, BE16(data[e + 2..e + 4]));
      }
    }
  }

  /** What is said of a footer of `n` bytes at `f`. */
  ghost predicate FooterAcceptedIff(data: seq<byte>, f: nat, n: nat)
    requires f <= |data|
  {
    && (Parse(data) == Err(FooterPastEnd) <==> |data| < f + n)
    && (Parse(data) == Err(FooterTooShort) <==> |data| >= f + n && n < 12)
    && (|data| >= f + n && n >= 12 ==>
          (Parse(data) == Err(SignaturePastFooter) <==> BE16(data[f + 10..f + 12]) > n - 12)
          && (Parse(data).Ok? <==> BE16(data[f + 10..f + 12]) <= n - 12))
  }

  lemma FooterOutcome(data: seq<byte>, f: nat, n: nat)
    requires 24 <= f <= |data| && f == 24 + BE16(data[18..20]) && n == BE16(data[f - 2..f])
    ensures FooterAcceptedIff(data, f, n)
  {
    if |data| >= f + n && n >= 12 {
      SliceOfSlice(data, f, n, 10, 12);
    }
  }

  /** A ticket survives being written and read exactly when its three size fields say the truth. */
  lemma RoundTripIff(t: Ticket)
    ensures Parse(Encoding(t)) == Ok(t) <==> SizesMatch(t)
  {
    if SizesMatch(t) {
      ParseOfEncoding(t);
    }
    if Parse(Encoding(t)) == Ok(t) {
      EncodingOfParsed(Encoding(t), t);
      assert 24 + t.bodySize + t.footerSize <= |Encoding(t)|;
    }
  }
}

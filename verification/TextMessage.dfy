/** The text-message codec: a typed envelope around fixed fields and three buffer strings. */
module TextMessage {
  import opened Bytes
  import opened Options

  datatype TextMessage = TextMessage(
    id: u32, idRecipient: u32, recipientType: u32, parentID: u32, senderPID: u32,
    receptionTime: u64, lifeTime: u32, flags: u32,
    subject: seq<byte>, sender: seq<byte>, textBody: seq<byte>)

  datatype Error =
    | BadTypeName | WrongType | NoOuterLength | NoInnerLength | NoFixedFields
    | BadSubject | BadSender | BadBody

  datatype StringAt = StringAt(str: seq<byte>, next: nat)

  const TYPE_NAME: seq<byte> := [84, 101, 120, 116, 77, 101, 115, 115, 97, 103, 101] // "TextMessage"
  const FIXED := 36

  /** How much is left of the first `n` bytes without the zero bytes at their end. */
  function KeptLength(s: seq<byte>, n: nat): (k: nat)
    requires n <= |s|
    ensures k <= n
  {
    if n > 0 && s[n - 1] == 0 then KeptLength(s, n - 1) else n
  }

  /** A string without the zero bytes at its end. */
  function TrimNul(s: seq<byte>): (t: seq<byte>)
    ensures |t| <= |s|
  {
    s[..KeptLength(s, |s|)]
  }

  predicate EndsInNul(s: seq<byte>) {
    s != [] && s[|s| - 1] == 0
  }

  // ---------- what the reader and the writer compute ----------

  /** The buffer string at an offset: a length, that many bytes, trailing zeros dropped. */
  function StringFrom(data: seq<byte>, offset: nat): Option<StringAt> {
    if |data| < offset + 4 then None
    else
      var length := LE32(data[offset..offset + 4]);
      if |data| < offset + 4 + length then None
      else Some(StringAt(TrimNul(data[offset + 4..offset + 4 + length]), offset + 4 + length))
  }

  function Parse(data: seq<byte>): Result<TextMessage, Error> {
    match StringFrom(data, 0)
    case None => Err(BadTypeName)
    case Some(StringAt(typeName, at)) =>
      if typeName != TYPE_NAME then Err(WrongType)
      else if |data| < at + 4 then Err(NoOuterLength)
      else if |data| < at + 8 then Err(NoInnerLength)
      else if |data| < at + 8 + FIXED then Err(NoFixedFields)
      else ParseStrings(data, at + 8)
  }

  /** The message whose fixed fields start at `o`. */
  function ParseStrings(data: seq<byte>, o: nat): Result<TextMessage, Error>
    requires o + FIXED <= |data|
  {
    match StringFrom(data, o + FIXED)
    case None => Err(BadSubject)
    case Some(StringAt(subject, o1)) =>
      match StringFrom(data, o1)
      case None => Err(BadSender)
      case Some(StringAt(sender, o2)) =>
        match StringFrom(data, o2)
        case None => Err(BadBody)
        case Some(StringAt(body, _)) => Ok(MessageAt(data, o, subject, sender, body))
  }

  /** The message with these strings and the fixed fields at `o`. */
  function MessageAt(data: seq<byte>, o: nat, subject: seq<byte>, sender: seq<byte>, body: seq<byte>): TextMessage
    requires o + FIXED <= |data|
  {
    TextMessage(
      LE32(data[o..o + 4]), LE32(data[o + 4..o + 8]), LE32(data[o + 8..o + 12]),
      LE32(data[o + 12..o + 16]), LE32(data[o + 16..o + 20]), LE64(data[o + 20..o + 28]),
      LE32(data[o + 28..o + 32]), LE32(data[o + 32..o + 36]), subject, sender, body)
  }

  function BufferString(s: seq<byte>): seq<byte> {
    PutLittleEndian(Length32(s), 4) + (s + [0])
  }

  /** The length of a terminated string, truncated to 32 bits. */
  function Length32(s: seq<byte>): (n: u32)
    ensures |s| < 0xFFFF_FFFF ==> n == |s| + 1
    ensures |s| >= 0xFFFF_FFFF ==> n < |s|
  {
    (|s| + 1) % 0x1_0000_0000
  }

  function FixedFields(m: TextMessage): (b: seq<byte>)
    ensures |b| == FIXED
  {
    PutLittleEndian(m.id, 4) + PutLittleEndian(m.idRecipient, 4) + PutLittleEndian(m.recipientType, 4)
    + PutLittleEndian(m.parentID, 4) + PutLittleEndian(m.senderPID, 4) + PutLittleEndian(m.receptionTime, 8)
    + PutLittleEndian(m.lifeTime, 4) + PutLittleEndian(m.flags, 4)
  }

  function Content(m: TextMessage): seq<byte> {
    FixedFields(m) + BufferString(m.subject) + BufferString(m.sender) + BufferString(m.textBody)
  }

  function Lengths(content: seq<byte>): (b: seq<byte>)
    ensures |b| == 8
  {
    PutLittleEndian((4 + |content|) % 0x1_0000_0000, 4) + PutLittleEndian(|content| % 0x1_0000_0000, 4)
  }

  function Encoding(m: TextMessage): seq<byte> {
    BufferString(TYPE_NAME) + Lengths(Content(m)) + Content(m)
  }

  // ---------- the codec as it runs ----------

  method WriteBufferString(buf: seq<byte>, str: seq<byte>) returns (out: seq<byte>)
    ensures out == buf + BufferString(str)
  {
    var strWithNull := str + [0];
    out := buf + PutLittleEndian(|strWithNull| % 0x1_0000_0000, 4);
    out := out + strWithNull;
    assert out == buf + BufferString(str);
  }

  method ReadBufferString(data: seq<byte>, offset: nat) returns (str: seq<byte>, next: nat, ok: bool)
    ensures ok == StringFrom(data, offset).Some?
    ensures ok ==> StringAt(str, next) == StringFrom(data, offset).value && next <= |data|
    ensures !ok ==> str == [] && next == if |data| < offset + 4 then offset else offset + 4
  {
    str, next := [], offset;
    if |data| < offset + 4 {
      return str, next, false;
    }
    var length := LE32(data[offset..offset + 4]);
    next := offset + 4;
    if |data| < next + length {
      return str, next, false;
    }
    ghost var untrimmed := data[next..next + length];
    str := data[next..next + length];
    while str != [] && str[|str| - 1] == 0
      invariant |str| <= |untrimmed| && str == untrimmed[..|str|]
      invariant KeptLength(untrimmed, |str|) == KeptLength(untrimmed, |untrimmed|)
      decreases |str|
    {
      str := str[..|str| - 1];
    }
    assert str == TrimNul(untrimmed);
    next := next + length;
    ok := true;
  }

  /** The message without its strings. */
  method ReadFixedFields(data: seq<byte>, o: nat) returns (m: TextMessage, next: nat)
    requires o + FIXED <= |data|
    ensures m == MessageAt(data, o, [], [], []) && next == o + FIXED
  {
    var offset := o;
    var id := LE32(data[offset..offset + 4]);
    offset := offset + 4;
    var idRecipient := LE32(data[offset..offset + 4]);
    offset := offset + 4;
    var recipientType := LE32(data[offset..offset + 4]);
    offset := offset + 4;
    var parentID := LE32(data[offset..offset + 4]);
    offset := offset + 4;
    var senderPID := LE32(data[offset..offset + 4]);
    offset := offset + 4;
    var receptionTime := LE64(data[offset..offset + 8]);
    offset := offset + 8;
    var lifeTime := LE32(data[offset..offset + 4]);
    offset := offset + 4;
    var flags := LE32(data[offset..offset + 4]);
    offset := offset + 4;
    m := TextMessage(id, idRecipient, recipientType, parentID, senderPID, receptionTime, lifeTime, flags, [], [], []);
    next := offset;
  }

  method Deserialize(data: seq<byte>) returns (r: Result<TextMessage, Error>)
    ensures r == Parse(data)
  {
    var typeName, offset, ok := ReadBufferString(data, 0);
    if !ok { return Err(BadTypeName); }
    if typeName != TYPE_NAME { return Err(WrongType); }
    if |data| < offset + 4 { return Err(NoOuterLength); }
    offset := offset + 4;
    if |data| < offset + 4 { return Err(NoInnerLength); }
    offset := offset + 4;
    if |data| < offset + 36 { return Err(NoFixedFields); }
    var fixed;
    fixed, offset := ReadFixedFields(data, offset);

    var subject, sender, textBody;
    subject, offset, ok := ReadBufferString(data, offset);
    if !ok { return Err(BadSubject); }
    sender, offset, ok := ReadBufferString(data, offset);
    if !ok { return Err(BadSender); }
    textBody, offset, ok := ReadBufferString(data, offset);
    if !ok { return Err(BadBody); }
    r := Ok(fixed.(subject := subject, sender := sender, textBody := textBody));
  }

  method WriteFixedFields(m: TextMessage) returns (content: seq<byte>)
    ensures content == FixedFields(m)
  {
    content := PutLittleEndian(m.id, 4);
    content := content + PutLittleEndian(m.idRecipient, 4);
    content := content + PutLittleEndian(m.recipientType, 4);
    content := content + PutLittleEndian(m.parentID, 4);
    content := content + PutLittleEndian(m.senderPID, 4);
    content := content + PutLittleEndian(m.receptionTime, 8);
    content := content + PutLittleEndian(m.lifeTime, 4);
    content := content + PutLittleEndian(m.flags, 4);
  }

  method Serialize(m: TextMessage) returns (output: seq<byte>)
    ensures output == Encoding(m)
  {
    var content := WriteFixedFields(m);
    content := WriteBufferString(content, m.subject);
    content := WriteBufferString(content, m.sender);
    content := WriteBufferString(content, m.textBody);
    assert content == Content(m);
    output := WriteBufferString([], TYPE_NAME);
    ghost var typeName := output;
    output := output + PutLittleEndian((4 + |content|) % 0x1_0000_0000, 4);
    output := output + PutLittleEndian(|content| % 0x1_0000_0000, 4);
    assert output == typeName + Lengths(content);
    output := output + content;
  }

  // ---------- round trips ----------

  /** What a message becomes when its strings lose the zero bytes at their ends. */
  function Trimmed(m: TextMessage): TextMessage {
    m.(subject := TrimNul(m.subject), sender := TrimNul(m.sender), textBody := TrimNul(m.textBody))
  }

  /** With its terminator, every string's length fits 32 bits. */
  predicate LengthsFit(m: TextMessage) {
    |m.subject| < 0xFFFF_FFFF && |m.sender| < 0xFFFF_FFFF && |m.textBody| < 0xFFFF_FFFF
  }

  lemma TrimNulOfTerminated(s: seq<byte>)
    ensures TrimNul(s + [0]) == TrimNul(s)
  {
    KeptOfLonger(s, [0], |s|);
    assert KeptLength(s + [0], |s| + 1) == KeptLength(s + [0], |s|);
  }

  lemma {:induction false} KeptOfLonger(s: seq<byte>, t: seq<byte>, n: nat)
    requires n <= |s|
    ensures KeptLength(s + t, n) == KeptLength(s, n)
    decreases n
  {
    if n == 0 {
    } else {
      KeptOfLonger(s, t, n - 1);
    }
  }

  /** What is trimmed has no zero byte at its end, so that nothing more is trimmed. */
  lemma {:induction false} KeptEnd(s: seq<byte>, n: nat)
    requires n <= |s|
    ensures KeptLength(s, n) > 0 ==> s[KeptLength(s, n) - 1] != 0
    decreases n
  {
    if n == 0 {
    } else {
      KeptEnd(s, n - 1);
    }
  }

  lemma TrimNulTwice(s: seq<byte>)
    ensures !EndsInNul(TrimNul(s)) && TrimNul(TrimNul(s)) == TrimNul(s)
  {
    KeptEnd(s, |s|);
  }

  lemma ReadsTerminated(data: seq<byte>, offset: nat, s: seq<byte>)
    requires offset + 5 + |s| <= |data|
    requires LE32(data[offset..offset + 4]) == |s| + 1
    requires data[offset + 4..offset + 5 + |s|] == s + [0]
    ensures StringFrom(data, offset) == Some(StringAt(TrimNul(s), offset + 5 + |s|))
  {
    TrimNulOfTerminated(s);
  }

  lemma BufferStringParts(s: seq<byte>)
    ensures |BufferString(s)| == |s| + 5
    ensures LE32(BufferString(s)[..4]) == Length32(s) && BufferString(s)[4..] == s + [0]
  {
    var size := PutLittleEndian(Length32(s), 4);
    ReadPut32(Length32(s));
    assert BufferString(s) == size + (s + [0]);
    assert BufferString(s)[..4] == size;
  }

  lemma BufferStringAt(data: seq<byte>, offset: nat, s: seq<byte>, rest: nat)
    requires offset + 5 + |s| == rest <= |data| && data[offset..rest] == BufferString(s)
    ensures LE32(data[offset..offset + 4]) == Length32(s) && data[offset + 4..rest] == s + [0]
  {
    var b := data[offset..rest];
    BufferStringParts(s);
    assert data[offset..offset + 4] == b[..4];
    assert data[offset + 4..rest] == b[4..];
  }

  /**
   * What stands at an offset is read as the string without its trailing zeros; a string too long for its prefix
   * is cut short.
   */
  predicate GivesBack(read: Option<StringAt>, offset: nat, s: seq<byte>) {
    && (|s| < 0xFFFF_FFFF ==> read == Some(StringAt(TrimNul(s), offset + 5 + |s|)))
    && (|s| >= 0xFFFF_FFFF ==> read.None? || |read.value.str| < |s|)
  }

  predicate ReadsBack(data: seq<byte>, offset: nat, s: seq<byte>) {
    GivesBack(StringFrom(data, offset), offset, s)
  }

  /** A written string, wherever it stands. */
  lemma ReadsWritten(data: seq<byte>, offset: nat, s: seq<byte>, rest: nat)
    requires offset + 5 + |s| == rest <= |data|
    requires data[offset..rest] == BufferString(s)
    ensures ReadsBack(data, offset, s)
  {
    BufferStringAt(data, offset, s, rest);
    if |s| < 0xFFFF_FFFF {
      ReadsTerminated(data, offset, s);
    } else {
      assert LE32(data[offset..offset + 4]) < |s|;
    }
  }

  lemma FixedFieldsRead(m: TextMessage, f: seq<byte>)
    requires f == FixedFields(m)
    ensures LE32(f[0..4]) == m.id && LE32(f[4..8]) == m.idRecipient
    ensures LE32(f[8..12]) == m.recipientType && LE32(f[12..16]) == m.parentID
    ensures LE32(f[16..20]) == m.senderPID && LE64(f[20..28]) == m.receptionTime
    ensures LE32(f[28..32]) == m.lifeTime && LE32(f[32..36]) == m.flags
  {
    assert f[0..4] == PutLittleEndian(m.id, 4);
    assert f[4..8] == PutLittleEndian(m.idRecipient, 4);
    assert f[8..12] == PutLittleEndian(m.recipientType, 4);
    assert f[12..16] == PutLittleEndian(m.parentID, 4);
    assert f[16..20] == PutLittleEndian(m.senderPID, 4);
    assert f[20..28] == PutLittleEndian(m.receptionTime, 8);
    assert f[28..32] == PutLittleEndian(m.lifeTime, 4);
    assert f[32..36] == PutLittleEndian(m.flags, 4);
    ReadPut32(m.id);
    ReadPut32(m.idRecipient);
    ReadPut32(m.recipientType);
    ReadPut32(m.parentID);
    ReadPut32(m.senderPID);
    ReadPut64(m.receptionTime);
    ReadPut32(m.lifeTime);
    ReadPut32(m.flags);
  }

  lemma FixedFieldsMoved(data: seq<byte>, o: nat)
    requires o + FIXED <= |data|
    ensures var f := data[o..o + FIXED];
            && data[o..o + 4] == f[0..4]
            && data[o + 4..o + 8] == f[4..8]
            && data[o + 8..o + 12] == f[8..12]
            && data[o + 12..o + 16] == f[12..16]
            && data[o + 16..o + 20] == f[16..20]
            && data[o + 20..o + 28] == f[20..28]
            && data[o + 28..o + 32] == f[28..32]
            && data[o + 32..o + 36] == f[32..36]
  {
    SliceOfSlice(data, o, FIXED, 0, 4);
    SliceOfSlice(data, o, FIXED, 4, 8);
    SliceOfSlice(data, o, FIXED, 8, 12);
    SliceOfSlice(data, o, FIXED, 12, 16);
    SliceOfSlice(data, o, FIXED, 16, 20);
    SliceOfSlice(data, o, FIXED, 20, 28);
    SliceOfSlice(data, o, FIXED, 28, 32);
    SliceOfSlice(data, o, FIXED, 32, 36);
  }

  lemma ContentParts(m: TextMessage)
    ensures var c, o1 := Content(m), FIXED + 5 + |m.subject|;
            var o2 := o1 + 5 + |m.sender|;
            && |c| == o2 + 5 + |m.textBody|
            && c[..FIXED] == FixedFields(m) && c[FIXED..o1] == BufferString(m.subject)
            && c[o1..o2] == BufferString(m.sender) && c[o2..] == BufferString(m.textBody)
  {
    BufferStringParts(m.subject);
    BufferStringParts(m.sender);
    BufferStringParts(m.textBody);
  }

  /** Reading strings from these bytes. */
  function Reader(data: seq<byte>): nat -> Option<StringAt> {
    (at: nat) => StringFrom(data, at)
  }

  /** Reading at `o0` finds these strings, one after the other. */
  ghost predicate StringsAt(read: nat -> Option<StringAt>, o0: nat, m: TextMessage) {
    var o1 := o0 + 5 + |m.subject|;
    var o2 := o1 + 5 + |m.sender|;
    GivesBack(read(o0), o0, m.subject) && GivesBack(read(o1), o1, m.sender) && GivesBack(read(o2), o2, m.textBody)
  }

  lemma PieceReadsBack(data: seq<byte>, o: nat, c: seq<byte>, i: nat, s: seq<byte>)
    requires o <= |data| && data[o..] == c
    requires i + 5 + |s| <= |c| && c[i..i + 5 + |s|] == BufferString(s)
    ensures GivesBack(Reader(data)(o + i), o + i, s)
  {
    assert c == data[o..o + |c|];
    SliceOfSlice(data, o, |c|, i, i + 5 + |s|);
    ReadsWritten(data, o + i, s, o + i + 5 + |s|);
  }

  lemma MessageAtFixed(data: seq<byte>, o: nat, m: TextMessage, s: seq<byte>, t: seq<byte>, b: seq<byte>)
    requires o + FIXED <= |data| && data[o..o + FIXED] == FixedFields(m)
    ensures MessageAt(data, o, s, t, b) == m.(subject := s, sender := t, textBody := b)
  {
    FixedFieldsRead(m, data[o..o + FIXED]);
    FixedFieldsMoved(data, o);
  }

  lemma FixedMoved(data: seq<byte>, o: nat, m: TextMessage)
    requires o <= |data| && data[o..] == Content(m)
    ensures o + FIXED <= |data| && data[o..o + FIXED] == FixedFields(m)
  {
    var c := data[o..];
    ContentParts(m);
    assert c == data[o..o + |c|];
    SliceOfSlice(data, o, |c|, 0, FIXED);
    assert c[..FIXED] == c[0..FIXED];
  }

  lemma SubjectMoved(data: seq<byte>, o: nat, m: TextMessage)
    requires o <= |data| && data[o..] == Content(m)
    ensures GivesBack(Reader(data)(o + FIXED), o + FIXED, m.subject)
  {
    ContentParts(m);
    PieceReadsBack(data, o, data[o..], FIXED, m.subject);
  }

  lemma SenderMoved(data: seq<byte>, o: nat, m: TextMessage)
    requires o <= |data| && data[o..] == Content(m)
    ensures var o1 := o + FIXED + 5 + |m.subject|; GivesBack(Reader(data)(o1), o1, m.sender)
  {
    ContentParts(m);
    PieceReadsBack(data, o, data[o..], FIXED + 5 + |m.subject|, m.sender);
  }

  lemma BodyMoved(data: seq<byte>, o: nat, m: TextMessage)
    requires o <= |data| && data[o..] == Content(m)
    ensures var o2 := o + FIXED + 5 + |m.subject| + 5 + |m.sender|; GivesBack(Reader(data)(o2), o2, m.textBody)
  {
    var c := data[o..];
    var o2 := FIXED + 5 + |m.subject| + 5 + |m.sender|;
    ContentParts(m);
    assert c[o2..] == c[o2..|c|];
    PieceReadsBack(data, o, c, o2, m.textBody);
  }

  lemma StringsParse(data: seq<byte>, o: nat, s: StringAt, t: StringAt, b: StringAt)
    requires o + FIXED <= |data| && StringFrom(data, o + FIXED) == Some(s)
    requires StringFrom(data, s.next) == Some(t) && StringFrom(data, t.next) == Some(b)
    ensures ParseStrings(data, o) == Ok(MessageAt(data, o, s.str, t.str, b.str))
  {
  }

  lemma StringsFound(read: nat -> Option<StringAt>, o0: nat, m: TextMessage)
    returns (s: StringAt, t: StringAt, b: StringAt)
    requires StringsAt(read, o0, m) && LengthsFit(m)
    ensures read(o0) == Some(s) && s.str == TrimNul(m.subject)
    ensures read(s.next) == Some(t) && t.str == TrimNul(m.sender)
    ensures read(t.next) == Some(b) && b.str == TrimNul(m.textBody)
  {
    var o1 := o0 + 5 + |m.subject|;
    var o2 := o1 + 5 + |m.sender|;
    s, t := StringAt(TrimNul(m.subject), o1), StringAt(TrimNul(m.sender), o2);
    b := StringAt(TrimNul(m.textBody), o2 + 5 + |m.textBody|);
  }

  lemma ParseStringsAt(data: seq<byte>, o: nat, m: TextMessage)
    requires o + FIXED <= |data| && StringsAt(Reader(data), o + FIXED, m) && LengthsFit(m)
    ensures ParseStrings(data, o) == Ok(MessageAt(data, o, TrimNul(m.subject), TrimNul(m.sender), TrimNul(m.textBody)))
  {
    var s, t, b := StringsFound(Reader(data), o + FIXED, m);
    StringsParse(data, o, s, t, b);
  }

  lemma StringsRead(data: seq<byte>, o: nat, m: TextMessage) returns (n1: nat, n2: nat, n3: nat)
    requires o + FIXED <= |data| && ParseStrings(data, o) == Ok(m)
    ensures Reader(data)(o + FIXED) == Some(StringAt(m.subject, n1))
    ensures Reader(data)(n1) == Some(StringAt(m.sender, n2))
    ensures Reader(data)(n2) == Some(StringAt(m.textBody, n3))
  {
    n1 := StringFrom(data, o + FIXED).value.next;
    n2 := StringFrom(data, n1).value.next;
    n3 := StringFrom(data, n2).value.next;
  }

  /** A message with a longer string does not survive: the first such string is cut short. */
  lemma FitsIfParsed(data: seq<byte>, o: nat, m: TextMessage)
    requires o + FIXED <= |data| && ParseStrings(data, o) == Ok(m)
    requires StringsAt(Reader(data), o + FIXED, m)
    ensures LengthsFit(m)
  {
    var n1, n2, n3 := StringsRead(data, o, m);
    FitIfRead(Reader(data), o + FIXED, m, n1, n2, n3);
  }

  /** The three strings fit if they are read where they were written, whatever reads them. */
  lemma FitIfRead(read: nat -> Option<StringAt>, o0: nat, m: TextMessage, n1: nat, n2: nat, n3: nat)
    requires StringsAt(read, o0, m) && read(o0) == Some(StringAt(m.subject, n1))
    requires read(n1) == Some(StringAt(m.sender, n2)) && read(n2) == Some(StringAt(m.textBody, n3))
    ensures LengthsFit(m)
  {
  }

  const CONTENT := 24

  lemma ReadsTypeName(data: seq<byte>)
    requires CONTENT <= |data| && data[0..16] == BufferString(TYPE_NAME)
    ensures StringFrom(data, 0) == Some(StringAt(TYPE_NAME, 16))
  {
    ReadsWritten(data, 0, TYPE_NAME, 16);
    assert TrimNul(TYPE_NAME) == TYPE_NAME;
  }

  lemma EncodingParts(m: TextMessage)
    ensures var data := Encoding(m);
            CONTENT <= |data| && data[0..16] == BufferString(TYPE_NAME) && data[CONTENT..] == Content(m)
  {
    BufferStringParts(TYPE_NAME);
  }

  /** The parser finds the content where the writer put it. */
  lemma ParsesContent(m: TextMessage)
    ensures CONTENT + FIXED <= |Encoding(m)| && Parse(Encoding(m)) == ParseStrings(Encoding(m), CONTENT)
    ensures Encoding(m)[CONTENT..CONTENT + FIXED] == FixedFields(m)
  {
    EncodingParts(m);
    ReadsTypeName(Encoding(m));
    FixedMoved(Encoding(m), CONTENT, m);
  }

  lemma StringsMoved(data: seq<byte>, o: nat, m: TextMessage)
    requires o <= |data| && data[o..] == Content(m)
    ensures StringsAt(Reader(data), o + FIXED, m)
  {
    SubjectMoved(data, o, m);
    SenderMoved(data, o, m);
    BodyMoved(data, o, m);
  }

  /** Parsing a serialized message gives the message, up to zero bytes at the ends of its strings. */
  lemma ParseOfEncoding(m: TextMessage)
    requires LengthsFit(m)
    ensures Parse(Encoding(m)) == Ok(Trimmed(m))
  {
    var data := Encoding(m);
    ParsesContent(m);
    EncodingParts(m);
    StringsMoved(data, CONTENT, m);
    ParseStringsAt(data, CONTENT, m);
    MessageAtFixed(data, CONTENT, m, TrimNul(m.subject), TrimNul(m.sender), TrimNul(m.textBody));
  }

  lemma LongIsLost(m: TextMessage)
    requires !LengthsFit(m)
    ensures Parse(Encoding(m)) != Ok(m)
  {
    if Parse(Encoding(m)) == Ok(m) {
      ParsesContent(m);
      EncodingParts(m);
      StringsMoved(Encoding(m), CONTENT, m);
      FitsIfParsed(Encoding(m), CONTENT, m);
    }
  }

  lemma TrimNulIff(s: seq<byte>)
    ensures TrimNul(s) == s <==> !EndsInNul(s)
  {
    TrimNulTwice(s);
  }

  /** Exactly the messages survive whose strings fit their length prefixes and do not end in a zero byte. */
  lemma RoundTripIff(m: TextMessage)
    ensures Parse(Encoding(m)) == Ok(m)
            <==> LengthsFit(m) && !EndsInNul(m.subject) && !EndsInNul(m.sender) && !EndsInNul(m.textBody)
  {
    if LengthsFit(m) {
      ParseOfEncoding(m);
      TrimNulIff(m.subject);
      TrimNulIff(m.sender);
      TrimNulIff(m.textBody);
    } else {
      LongIsLost(m);
    }
  }

  lemma ReadIsTrimmed(data: seq<byte>, offset: nat, s: StringAt)
    requires StringFrom(data, offset) == Some(s)
    ensures TrimNul(s.str) == s.str && |s.str| <= |data|
  {
    TrimNulTwice(data[offset + 4..s.next]);
  }

  lemma ParsedIsTrimmed(data: seq<byte>, m: TextMessage)
    requires Parse(data) == Ok(m)
    ensures Trimmed(m) == m && |m.subject| <= |data| && |m.sender| <= |data| && |m.textBody| <= |data|
  {
    var o := StringFrom(data, 0).value.next + 8;
    var n1, n2, n3 := StringsRead(data, o, m);
    ReadIsTrimmed(data, o + FIXED, StringAt(m.subject, n1));
    ReadIsTrimmed(data, n1, StringAt(m.sender, n2));
    ReadIsTrimmed(data, n2, StringAt(m.textBody, n3));
  }

  /** Whatever the parser accepts is a fixed point: written again it is accepted and parses to the same. */
  lemma ReserializationIsStable(data: seq<byte>, m: TextMessage)
    requires |data| < 0x8000_0000
    requires Parse(data) == Ok(m)
    ensures Parse(Encoding(m)) == Ok(m)
  {
    ParsedIsTrimmed(data, m);
    ParseOfEncoding(m);
  }

  // ---------- where everything stands ----------

  /** Behind the type name: a length that counts the one behind it, then both count all that follows, modulo 2^32. */
  lemma EnvelopeLayout(m: TextMessage)
    ensures var data := Encoding(m);
            && |data| >= 24
            && data[..16] == [12, 0, 0, 0] + [84, 101, 120, 116, 77, 101, 115, 115, 97, 103, 101] + [0]
            && LE32(data[16..20]) == (|data| - 20) % 0x1_0000_0000
            && LE32(data[20..24]) == (|data| - 24) % 0x1_0000_0000
  {
    var data, n := Encoding(m), |Content(m)|;
    EncodingParts(m);
    TypeNameBytes();
    assert data[16..24] == Lengths(Content(m));
    assert data[16..20] == Lengths(Content(m))[..4] == PutLittleEndian((4 + n) % 0x1_0000_0000, 4);
    assert data[20..24] == Lengths(Content(m))[4..] == PutLittleEndian(n % 0x1_0000_0000, 4);
    ReadPut32((4 + n) % 0x1_0000_0000);
    ReadPut32(n % 0x1_0000_0000);
  }

  lemma TypeNameBytes()
    ensures BufferString(TYPE_NAME) == [12, 0, 0, 0] + [84, 101, 120, 116, 77, 101, 115, 115, 97, 103, 101] + [0]
  {
    assert PutLittleEndian(12, 4) == [12] + PutLittleEndian(0, 3);
    assert PutLittleEndian(0, 3) == [0] + PutLittleEndian(0, 2);
    assert PutLittleEndian(0, 2) == [0] + PutLittleEndian(0, 1);
    assert PutLittleEndian(0, 1) == [0] + PutLittleEndian(0, 0);
  }

  predicate HasFixed(data: seq<byte>, m: TextMessage) {
    && |data| >= 60
    && LE32(data[24..28]) == m.id && LE32(data[28..32]) == m.idRecipient
    && LE32(data[32..36]) == m.recipientType && LE32(data[36..40]) == m.parentID
    && LE32(data[40..44]) == m.senderPID && LE64(data[44..52]) == m.receptionTime
    && LE32(data[52..56]) == m.lifeTime && LE32(data[56..60]) == m.flags
  }

  lemma FixedAt24(data: seq<byte>, m: TextMessage)
    requires |data| >= 60 && data[24..60] == FixedFields(m)
    ensures HasFixed(data, m)
  {
    FixedFieldsRead(m, data[24..60]);
    FixedFieldsMoved(data, 24);
  }

  lemma FixedInEncoding(m: TextMessage)
    ensures |Encoding(m)| >= 60 && Encoding(m)[24..60] == FixedFields(m)
  {
    EncodingParts(m);
    FixedMoved(Encoding(m), CONTENT, m);
  }

  /** The fixed fields stand at these offsets in the bytes of any message. */
  lemma FixedLayout(m: TextMessage)
    ensures HasFixed(Encoding(m), m)
  {
    FixedInEncoding(m);
    FixedAt24(Encoding(m), m);
  }

  /** A string's length with its terminator, modulo 2^32 and least significant byte first, the string, and a zero. */
  function Terminated(s: seq<byte>): (b: seq<byte>)
    ensures |b| == |s| + 5
  {
    var n := (|s| + 1) % 0x1_0000_0000;
    [n % 256, n / 256 % 256, n / 65536 % 256, n / 16777216 % 256] + s + [0]
  }

  lemma BufferIsTerminated(s: seq<byte>)
    ensures BufferString(s) == Terminated(s)
  {
    Put32(Length32(s));
  }

  lemma ContentIsTerminated(m: TextMessage)
    ensures Content(m)[36..] == Terminated(m.subject) + Terminated(m.sender) + Terminated(m.textBody)
  {
    BufferIsTerminated(m.subject);
    BufferIsTerminated(m.sender);
    BufferIsTerminated(m.textBody);
    DropPrefix(FixedFields(m), Terminated(m.subject), Terminated(m.sender), Terminated(m.textBody));
  }

  lemma DropPrefix(f: seq<byte>, a: seq<byte>, b: seq<byte>, c: seq<byte>)
    ensures (f + a + b + c)[|f|..] == a + b + c
  {
  }

  lemma Behind(data: seq<byte>, i: nat, j: nat)
    requires i + j <= |data|
    ensures data[i + j..] == data[i..][j..]
  {
  }

  /** The three strings stand behind the fixed fields, each behind its length with the terminator and before a zero. */
  lemma StringLayout(m: TextMessage)
    ensures |Encoding(m)| >= 60
    ensures Encoding(m)[60..] == Terminated(m.subject) + Terminated(m.sender) + Terminated(m.textBody)
  {
    FixedInEncoding(m);
    EncodingParts(m);
    ContentIsTerminated(m);
    Behind(Encoding(m), 24, 36);
  }

  // ---------- what is refused ----------

  /** A string is read if its length and that many bytes are there; only zero bytes at its end are dropped. */
  lemma StringIff(data: seq<byte>, offset: nat)
    ensures StringFrom(data, offset).Some?
            <==> |data| >= offset + 4 && |data| >= offset + 4 + LE32(data[offset..offset + 4])
    ensures StringFrom(data, offset).Some? ==>
      var r, k := StringFrom(data, offset).value, offset + 4;
      && r.next == k + LE32(data[offset..k])
      && |r.str| <= r.next - k && r.str == data[k..k + |r.str|]
      && (r.str != [] ==> r.str[|r.str| - 1] != 0)
      && forall i :: k + |r.str| <= i < r.next ==> data[i] == 0
  {
    if StringFrom(data, offset).Some? {
      var k, next := offset + 4, StringFrom(data, offset).value.next;
      KeptEnd(data[k..next], next - k);
      DroppedIsZero(data[k..next], next - k);
      forall i | k + KeptLength(data[k..next], next - k) <= i < next
        ensures data[i] == 0
      {
        assert data[i] == data[k..next][i - k];
      }
    }
  }

  lemma {:induction false} DroppedIsZero(s: seq<byte>, n: nat)
    requires n <= |s|
    ensures forall i :: KeptLength(s, n) <= i < n ==> s[i] == 0
    decreases n
  {
    if n == 0 {
    } else if s[n - 1] == 0 {
      DroppedIsZero(s, n - 1);
    }
  }

  /** The errors before the strings: no type name, another one, or fewer than 44 bytes behind it. */
  lemma RefusedIff(data: seq<byte>)
    ensures Parse(data) == Err(BadTypeName) <==> StringFrom(data, 0).None?
    ensures StringFrom(data, 0).Some? ==>
      var typeName, k := StringFrom(data, 0).value.str, StringFrom(data, 0).value.next;
      var ok := typeName == [84, 101, 120, 116, 77, 101, 115, 115, 97, 103, 101];
      && (Parse(data) == Err(WrongType) <==> !ok)
      && (Parse(data) == Err(NoOuterLength) <==> ok && |data| < k + 4)
      && (Parse(data) == Err(NoInnerLength) <==> ok && k + 4 <= |data| < k + 8)
      && (Parse(data) == Err(NoFixedFields) <==> ok && k + 8 <= |data| < k + 44)
      && (ok && k + 44 <= |data| ==> StringsDecide(data, k + 44))
  {
  }

  /** Behind the fixed fields, the first of the three strings that cannot be read is told; otherwise it is accepted. */
  ghost predicate StringsDecide(data: seq<byte>, o: nat) {
    match StringFrom(data, o)
    case None => Parse(data) == Err(BadSubject)
    case Some(subject) =>
      match StringFrom(data, subject.next)
      case None => Parse(data) == Err(BadSender)
      case Some(sender) =>
        if StringFrom(data, sender.next).None? then Parse(data) == Err(BadBody) else Parse(data).Ok?
  }
}

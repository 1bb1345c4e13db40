/** OSC 1.0 messages: the padded binary encoding and the parser that must invert it. */
module OscFraming {
  import opened Common
  import opened Bits

  /** A 32-bit float is its four bytes: what they mean is not read here. */
  type Float32 = bits: seq<byte> | |bits| == 4 witness [0, 0, 0, 0]

  datatype Arg =
    | Bool(flag: bool)
    | Int(number: int)
    | Float(bits: Float32)
    | Str(text: string)
    | Blob(data: seq<byte>)
    | Nil

  datatype BuildError = NotAscii | IntTooLarge | BlobTooLarge | UnsupportedArgument

  datatype OscError =
    | BundleNotSupported
    | EmptyPacket
    | UnterminatedString
    | AddressWithoutSlash
    | MissingTypeTags
    | TruncatedArgument
    | UnsupportedTag(tag: char)

  datatype Message = Message(address: string, args: seq<Arg>)

  // ---- padded strings ----

  predicate Aligned(n: nat) {
    n % 4 == 0
  }

  lemma AlignedSum(a: nat, b: nat)
    requires Aligned(a)
    ensures Aligned(a + b) <==> Aligned(b)
  {
  }

  function Padding(n: nat): (p: nat)
    ensures p < 4 && Aligned(n + p)
  {
    FillsUp(n / 4, n % 4);
    (4 - n % 4) % 4
  }

  lemma FillsUp(q: nat, r: nat)
    requires r < 4
    ensures Aligned(4 * q + r + (4 - r) % 4)
  {
    if r == 0 {
      assert (4 - r) % 4 == 0;
    } else {
      assert (4 - r) % 4 == 4 - r;
      assert 4 * q + r + (4 - r) == 4 * (q + 1);
    }
  }

  function ZeroBytes(n: nat): (z: seq<byte>)
    ensures |z| == n && forall i :: 0 <= i < n ==> z[i] == 0
  {
    seq(n, _ => 0)
  }

  predicate IsAscii(s: string) {
    forall i :: 0 <= i < |s| ==> s[i] as int < 128
  }

  function AsciiBytes(s: string): (b: seq<byte>)
    requires IsAscii(s)
    ensures |b| == |s| && forall i :: 0 <= i < |s| ==> b[i] == s[i] as int
  {
    seq(|s|, i requires 0 <= i < |s| => s[i] as int)
  }

  /** The text, a NUL, and NULs up to a multiple of four bytes. */
  function OscStringBytes(s: string): (b: seq<byte>)
    requires IsAscii(s)
    ensures |b| == |s| + 1 + Padding(|s| + 1) && Aligned(|b|)
  {
    AsciiBytes(s) + [0] + ZeroBytes(Padding(|s| + 1))
  }

  /** `decode("ascii", errors="replace")`. */
  function DecodeByte(b: byte): char {
    if b < 128 then b as char else '\U{FFFD}'
  }

  function Decode(data: seq<byte>): (s: string)
    ensures |s| == |data|
  {
    seq(|data|, i requires 0 <= i < |data| => DecodeByte(data[i]))
  }

  /** `data.find(b"\x00", offset)`, with the length of the data for "not found". */
  function FindNul(data: seq<byte>, offset: nat): (i: nat)
    ensures i <= |data| || i == offset
    ensures offset <= i
    ensures i < |data| ==> data[i] == 0
    ensures forall k :: offset <= k < i && k < |data| ==> data[k] != 0
    decreases |data| - offset
  {
    if offset >= |data| || data[offset] == 0 then offset else FindNul(data, offset + 1)
  }

  function ReadOscString(data: seq<byte>, offset: nat): Result<(string, nat), OscError> {
    var terminator := FindNul(data, offset);
    if terminator >= |data| then Err(UnterminatedString)
    else Ok((Decode(data[offset..terminator]), terminator + 1 + Padding(terminator + 1)))
  }

  // ---- numbers ----

  /** `n.to_bytes(width, "big")`. */
  function ToBytes(n: nat, width: nat): (b: seq<byte>)
    ensures |b| == width
  {
    if width == 0 then [] else ToBytes(n / 256, width - 1) + [n % 256]
  }

  /** `int.from_bytes(b, "big")`. */
  function FromBytes(b: seq<byte>): nat {
    if b == [] then 0 else 256 * FromBytes(b[..|b| - 1]) + b[|b| - 1] as int
  }

  function Pow256(n: nat): nat {
    if n == 0 then 1 else 256 * Pow256(n - 1)
  }

  lemma {:induction false} BytesRoundTrip(n: nat, width: nat)
    requires n < Pow256(width)
    ensures FromBytes(ToBytes(n, width)) == n
  {
    if width > 0 {
      BytesRoundTrip(n / 256, width - 1);
      assert ToBytes(n, width)[..width - 1] == ToBytes(n / 256, width - 1);
    }
  }

  function BigEndian(n: nat): (b: seq<byte>)
    ensures |b| == 4
  {
    ToBytes(n, 4)
  }

  function FromBigEndian(b: seq<byte>): nat
    requires |b| == 4
  {
    FromBytes(b)
  }

  predicate IsInt32(i: int) {
    -0x80000000 <= i < 0x80000000
  }

  function ToUnsigned(i: int): nat
    requires IsInt32(i)
  {
    if i < 0 then i + 0x100000000 else i
  }

  function ToSigned(n: nat): int {
    if n >= 0x80000000 then n - 0x100000000 else n
  }

  // ---- building ----

  function EncodeArg(arg: Arg): Result<(char, seq<byte>), BuildError> {
    match arg
    case Bool(flag) => Ok((if flag then 'T' else 'F', []))
    case Int(i) => if IsInt32(i) then Ok(('i', BigEndian(ToUnsigned(i)))) else Err(IntTooLarge)
    case Float(bits) => Ok(('f', bits))
    case Str(s) => if IsAscii(s) then Ok(('s', OscStringBytes(s))) else Err(NotAscii)
    case Blob(data) =>
      if |data| < 0x100000000 then Ok(('b', BigEndian(|data|) + data + ZeroBytes(Padding(|data|))))
      else Err(BlobTooLarge)
    case Nil => Err(UnsupportedArgument)
  }

  datatype Encoded = Encoded(tags: string, bytes: seq<byte>)

  function EncodeArgs(args: seq<Arg>): Result<Encoded, BuildError> {
    if args == [] then Ok(Encoded([], []))
    else
      match EncodeArgs(args[..|args| - 1])
      case Err(e) => Err(e)
      case Ok(before) =>
        match EncodeArg(args[|args| - 1])
        case Err(e) => Err(e)
        case Ok((tag, bytes)) => Ok(Encoded(before.tags + [tag], before.bytes + bytes))
  }

  lemma {:induction false} TagsAreAscii(args: seq<Arg>)
    requires EncodeArgs(args).Ok?
    ensures IsAscii(EncodeArgs(args).value.tags)
    ensures |EncodeArgs(args).value.tags| == |args|
    ensures forall i :: 0 <= i < |args| ==> EncodeArgs(args).value.tags[i] != '\0'
  {
    if args != [] {
      TagsAreAscii(args[..|args| - 1]);
    }
  }

  function Build(m: Message): Result<seq<byte>, BuildError> {
    match EncodeArgs(m.args)
    case Err(e) => Err(e)
    case Ok(encoded) =>
      TagsAreAscii(m.args);
      if !IsAscii(m.address) then Err(NotAscii)
      else Ok(OscStringBytes(m.address) + OscStringBytes("," + encoded.tags) + encoded.bytes)
  }

  /** `build_osc_message`: one pass over the arguments, tags and bytes growing side by side. */
  method BuildOscMessage(address: string, args: seq<Arg>) returns (r: Result<seq<byte>, BuildError>)
    ensures r == Build(Message(address, args))
  {
    var typeTags := ",";
    var argBytes: seq<byte> := [];
    for i := 0 to |args|
      invariant EncodeArgs(args[..i]).Ok?
      invariant typeTags == "," + EncodeArgs(args[..i]).value.tags && argBytes == EncodeArgs(args[..i]).value.bytes
    {
      assert args[..i + 1][..i] == args[..i];
      var encoded := EncodeArg(args[i]);
      if encoded.Err? {
        ErrorStays(args, i);
        return Err(encoded.error);
      }
      typeTags := typeTags + [encoded.value.0];
      argBytes := argBytes + encoded.value.1;
    }
    assert args[..|args|] == args;
    TagsAreAscii(args);
    if !IsAscii(address) {
      return Err(NotAscii);
    }
    r := Ok(OscStringBytes(address) + OscStringBytes(typeTags) + argBytes);
  }

  lemma {:induction false} ErrorStays(args: seq<Arg>, i: nat)
    requires i < |args| && EncodeArgs(args[..i]).Ok? && EncodeArg(args[i]).Err?
    ensures EncodeArgs(args) == Err(EncodeArg(args[i]).error)
    decreases |args|
  {
    var n := |args| - 1;
    if i < n {
      assert args[..n][..i] == args[..i];
      ErrorStays(args[..n], i);
    } else {
      assert args[..i + 1] == args;
    }
  }

  // ---- parsing ----

  function ParseArg(data: seq<byte>, tag: char, offset: nat): Result<(Arg, nat), OscError> {
    if tag == 'i' then
      if offset + 4 > |data| then Err(TruncatedArgument)
      else Ok((Int(ToSigned(FromBigEndian(data[offset..offset + 4]))), offset + 4))
    else if tag == 'f' then
      if offset + 4 > |data| then Err(TruncatedArgument)
      else Ok((Float(data[offset..offset + 4]), offset + 4))
    else if tag == 's' then
      match ReadOscString(data, offset)
      case Err(e) => Err(e)
      case Ok((text, next)) => Ok((Str(text), next))
    else if tag == 'b' then
      if offset + 4 > |data| then Err(TruncatedArgument)
      else
        var size := FromBigEndian(data[offset..offset + 4]);
        var from := offset + 4;
        if from + size > |data| then Err(TruncatedArgument)
        else Ok((Blob(data[from..from + size]), from + size + Padding(from + size)))
    else if tag == 'T' || tag == 'I' then Ok((Bool(true), offset))
    else if tag == 'F' then Ok((Bool(false), offset))
    else if tag == 'N' then Ok((Nil, offset))
    else Err(UnsupportedTag(tag))
  }

  function ParseArgs(data: seq<byte>, tags: string, offset: nat): Result<seq<Arg>, OscError>
    decreases |tags|
  {
    if tags == [] then Ok([])
    else
      match ParseArg(data, tags[0], offset)
      case Err(e) => Err(e)
      case Ok((arg, next)) =>
        match ParseArgs(data, tags[1..], next)
        case Err(e) => Err(e)
        case Ok(rest) => Ok([arg] + rest)
  }

  const BUNDLE_MARKER: seq<byte> := [35, 98, 117, 110, 100, 108, 101, 0]

  function Parse(data: seq<byte>): Result<Message, OscError> {
    if BUNDLE_MARKER <= data then Err(BundleNotSupported)
    else if data == [] then Err(EmptyPacket)
    else
      match ReadOscString(data, 0)
      case Err(e) => Err(e)
      case Ok((address, offset)) =>
        if !("/" <= address) then Err(AddressWithoutSlash)
        else if offset >= |data| then Ok(Message(address, []))
        else
          match ReadOscString(data, offset)
          case Err(e) => Err(e)
          case Ok((tags, first)) =>
            if !("," <= tags) then Err(MissingTypeTags)
            else
              match ParseArgs(data, tags[1..], first)
              case Err(e) => Err(e)
              case Ok(args) => Ok(Message(address, args))
  }

  function Prepend(args: seq<Arg>, r: Result<seq<Arg>, OscError>): Result<seq<Arg>, OscError> {
    if r.Ok? then Ok(args + r.value) else r
  }

  /** `parse_osc_message`: one pass over the type tags with a running offset. */
  method ParseOscMessage(data: seq<byte>) returns (r: Result<Message, OscError>)
    ensures r == Parse(data)
  {
    if BUNDLE_MARKER <= data {
      return Err(BundleNotSupported);
    }
    if data == [] {
      return Err(EmptyPacket);
    }
    var head := ReadOscString(data, 0);
    if head.Err? {
      return Err(head.error);
    }
    var address: string, offset: nat := head.value.0, head.value.1;
    if !("/" <= address) {
      return Err(AddressWithoutSlash);
    }
    if offset >= |data| {
      return Ok(Message(address, []));
    }
    var second := ReadOscString(data, offset);
    if second.Err? {
      return Err(second.error);
    }
    var typeTags := second.value.0;
    offset := second.value.1;
    if !("," <= typeTags) {
      return Err(MissingTypeTags);
    }
    var tags := typeTags[1..];
    ghost var whole := ParseArgs(data, tags, offset);
    var args: seq<Arg> := [];
    PrependNothing(whole);
    assert tags[0..] == tags;
    for i := 0 to |tags|
      invariant Prepend(args, ParseArgs(data, tags[i..], offset)) == whole
      invariant Aligned(offset)
    {
      var next := ParseArg(data, tags[i], offset);
      assert tags[i..][1..] == tags[i + 1..];
      if next.Err? {
        return Err(next.error);
      }
      ParseStep(args, data, tags[i..], offset);
      ArgumentKeepsAlignment(data, tags[i], offset);
      args := args + [next.value.0];
      offset := next.value.1;
    }
    assert args + [] == args;
    r := Ok(Message(address, args));
  }

  lemma PrependNothing(r: Result<seq<Arg>, OscError>)
    ensures Prepend([], r) == r
  {
    if r.Ok? {
      assert [] + r.value == r.value;
    }
  }

  lemma ParseStep(args: seq<Arg>, data: seq<byte>, tags: string, offset: nat)
    requires tags != [] && ParseArg(data, tags[0], offset).Ok?
    ensures var (arg, next) := ParseArg(data, tags[0], offset).value;
      Prepend(args, ParseArgs(data, tags, offset)) == Prepend(args + [arg], ParseArgs(data, tags[1..], next))
  {
    var (arg, next) := ParseArg(data, tags[0], offset).value;
    var rest := ParseArgs(data, tags[1..], next);
    if rest.Ok? {
      assert args + ([arg] + rest.value) == (args + [arg]) + rest.value;
    }
  }

  // ---- alignment ----

  lemma ArgumentKeepsAlignment(data: seq<byte>, tag: char, offset: nat)
    requires Aligned(offset) && ParseArg(data, tag, offset).Ok?
    ensures Aligned(ParseArg(data, tag, offset).value.1)
  {
    AlignedSum(offset, 4);
  }

  /** The values the running offset takes over the arguments, up to the end or the first error. */
  function ArgOffsets(data: seq<byte>, tags: string, offset: nat): seq<nat>
    decreases |tags|
  {
    [offset] +
    if tags == [] || ParseArg(data, tags[0], offset).Err? then []
    else ArgOffsets(data, tags[1..], ParseArg(data, tags[0], offset).value.1)
  }

  /** And over the whole packet: the address, the type tags, the arguments. */
  function ParserOffsets(data: seq<byte>): seq<nat> {
    [0] +
    match ReadOscString(data, 0)
    case Err(_) => []
    case Ok((_, offset)) =>
      [offset] +
      if offset >= |data| || ReadOscString(data, offset).Err? then []
      else
        var (tags, first) := ReadOscString(data, offset).value;
        if tags == [] then [first] else ArgOffsets(data, tags[1..], first)
  }

  lemma {:induction false} ArgOffsetsAreAligned(data: seq<byte>, tags: string, offset: nat)
    requires Aligned(offset)
    ensures forall k :: 0 <= k < |ArgOffsets(data, tags, offset)| ==> Aligned(ArgOffsets(data, tags, offset)[k])
    decreases |tags|
  {
    if tags != [] && ParseArg(data, tags[0], offset).Ok? {
      ArgumentKeepsAlignment(data, tags[0], offset);
      ArgOffsetsAreAligned(data, tags[1..], ParseArg(data, tags[0], offset).value.1);
    }
  }

  /** Whatever bytes arrive, every offset of the whole parse is a multiple of 4. */
  lemma OffsetsStayAligned(data: seq<byte>)
    ensures forall k :: 0 <= k < |ParserOffsets(data)| ==> Aligned(ParserOffsets(data)[k])
  {
    if ReadOscString(data, 0).Ok? {
      var offset := ReadOscString(data, 0).value.1;
      if offset < |data| && ReadOscString(data, offset).Ok? {
        var (tags, first) := ReadOscString(data, offset).value;
        if tags != [] {
          ArgOffsetsAreAligned(data, tags[1..], first);
        }
      }
    }
  }

  lemma {:induction false} ArgumentBytesAreAligned(args: seq<Arg>)
    requires EncodeArgs(args).Ok?
    ensures Aligned(|EncodeArgs(args).value.bytes|)
  {
    if args != [] {
      var front, last := EncodeArgs(args[..|args| - 1]).value.bytes, EncodeArg(args[|args| - 1]).value.1;
      ArgumentBytesAreAligned(args[..|args| - 1]);
      OneArgumentIsAligned(args[|args| - 1]);
      AlignedSum(|front|, |last|);
    }
  }

  lemma OneArgumentIsAligned(arg: Arg)
    ensures EncodeArg(arg).Ok? ==> Aligned(|EncodeArg(arg).value.1|)
  {
    match arg
    case Blob(data) => AlignedSum(4, |data| + Padding(|data|));
    case _ =>
  }

  lemma PacketsAreAligned(m: Message)
    ensures Build(m).Ok? ==> Aligned(|Build(m).value|)
  {
    if Build(m).Ok? {
      ArgumentBytesAreAligned(m.args);
      var e := EncodeArgs(m.args).value;
      TagsAreAscii(m.args);
      var address, tags := OscStringBytes(m.address), OscStringBytes("," + e.tags);
      AlignedSum(|address|, |tags|);
      AlignedSum(|address| + |tags|, |e.bytes|);
    }
  }

  // ---- the round trip ----

  predicate NulFree(s: string) {
    forall i :: 0 <= i < |s| ==> s[i] != '\0'
  }

  lemma IntRoundTrip(i: int)
    requires IsInt32(i)
    ensures ToSigned(FromBigEndian(BigEndian(ToUnsigned(i)))) == i
  {
    BigEndianRoundTrip(ToUnsigned(i));
  }

  lemma BigEndianRoundTrip(n: nat)
    requires n < 0x100000000
    ensures FromBigEndian(BigEndian(n)) == n
  {
    assert Pow256(4) == 0x100000000;
    BytesRoundTrip(n, 4);
  }

  /** A NUL-free string stored at an aligned place is read back, and the reader stops right behind it. */
  lemma StringRoundTrip(before: seq<byte>, s: string, after: seq<byte>)
    requires Aligned(|before|) && IsAscii(s) && NulFree(s)
    ensures ReadOscString(before + OscStringBytes(s) + after, |before|) == Ok((s, |before| + |OscStringBytes(s)|))
  {
    var data := before + OscStringBytes(s) + after;
    var end := |before| + |s|;
    assert data[|before|..end] == AsciiBytes(s);
    assert data[end] == 0;
    forall k | |before| <= k < end
      ensures data[k] != 0
    {
      assert data[k] == s[k - |before|] as int;
    }
    NulFoundAt(data, |before|, end);
    forall i | 0 <= i < |s|
      ensures Decode(AsciiBytes(s))[i] == s[i]
    {
    }
    assert Decode(AsciiBytes(s)) == s;
    SamePadding(|before|, |s| + 1);
  }

  lemma NulFoundAt(data: seq<byte>, offset: nat, end: nat)
    requires offset <= end < |data| && data[end] == 0
    requires forall k :: offset <= k < end ==> data[k] != 0
    ensures FindNul(data, offset) == end
  {
  }

  lemma SamePadding(a: nat, n: nat)
    requires Aligned(a)
    ensures Padding(a + n) == Padding(n)
  {
    assert (a + n) % 4 == n % 4;
  }

  predicate ArgNulFree(arg: Arg) {
    arg.Str? ==> NulFree(arg.text)
  }

  lemma ArgRoundTrip(before: seq<byte>, arg: Arg, after: seq<byte>)
    requires Aligned(|before|) && EncodeArg(arg).Ok? && ArgNulFree(arg)
    ensures var (tag, bytes) := EncodeArg(arg).value;
      ParseArg(before + bytes + after, tag, |before|) == Ok((arg, |before| + |bytes|))
  {
    var (tag, bytes) := EncodeArg(arg).value;
    var data, o := before + bytes + after, |before|;
    match arg
    case Bool(_) =>
    case Int(i) =>
      assert data[o..o + 4] == bytes;
      IntRoundTrip(i);
    case Float(bits) => assert data[o..o + 4] == bits;
    case Str(s) => StringRoundTrip(before, s, after);
    case Blob(blob) =>
      assert data[o..o + 4] == BigEndian(|blob|);
      BigEndianRoundTrip(|blob|);
      assert data[o + 4..o + 4 + |blob|] == blob;
      AlignedSum(o, 4);
      SamePadding(o + 4, |blob|);
  }

  /** Reading one argument: its value and where the next one starts. */
  type ArgReader = (char, nat) -> Result<(Arg, nat), OscError>

  /** Reading `tags` from `from` yields `args` and ends at `offset`. */
  predicate Walks(read: ArgReader, tags: string, from: nat, args: seq<Arg>, offset: nat)
    decreases |tags|
  {
    if tags == [] then args == [] && from == offset
    else
      && args != []
      && read(tags[0], from).Ok?
      && read(tags[0], from).value.0 == args[0]
      && Walks(read, tags[1..], read(tags[0], from).value.1, args[1..], offset)
  }

  lemma {:induction false} WalksSnoc(
      read: ArgReader, tags: string, last: char, from: nat, args: seq<Arg>, offset: nat, arg: Arg, next: nat)
    requires Walks(read, tags, from, args, offset)
    requires read(last, offset) == Ok((arg, next))
    ensures Walks(read, tags + [last], from, args + [arg], next)
    decreases |tags|
  {
    if tags == [] {
      assert Walks(read, [], next, [], next);
      assert ([] + [last])[1..] == [] && (args + [arg])[1..] == [];
    } else {
      var (first, second) := read(tags[0], from).value;
      WalksSnoc(read, tags[1..], last, second, args[1..], offset, arg, next);
      assert (tags + [last])[1..] == tags[1..] + [last];
      assert (args + [arg])[1..] == args[1..] + [arg];
    }
  }

  function ReaderOf(data: seq<byte>): ArgReader {
    (tag, offset) => ParseArg(data, tag, offset)
  }

  lemma {:induction false} WalksParse(data: seq<byte>, tags: string, from: nat, args: seq<Arg>, offset: nat)
    requires Walks(ReaderOf(data), tags, from, args, offset)
    ensures ParseArgs(data, tags, from) == Ok(args)
    decreases |tags|
  {
    if tags != [] {
      WalksParse(data, tags[1..], ParseArg(data, tags[0], from).value.1, args[1..], offset);
      assert args == [args[0]] + args[1..];
    }
  }

  lemma ArgRoundTripAt(data: seq<byte>, o: nat, arg: Arg)
    requires Aligned(o) && EncodeArg(arg).Ok? && ArgNulFree(arg)
    requires o + |EncodeArg(arg).value.1| <= |data| && data[o..o + |EncodeArg(arg).value.1|] == EncodeArg(arg).value.1
    ensures ParseArg(data, EncodeArg(arg).value.0, o) == Ok((arg, o + |EncodeArg(arg).value.1|))
  {
    var bytes := EncodeArg(arg).value.1;
    ArgRoundTrip(data[..o], arg, data[o + |bytes|..]);
    assert data[..o] + bytes + data[o + |bytes|..] == data;
  }

  lemma SliceSplit(data: seq<byte>, o: nat, f: seq<byte>, b: seq<byte>)
    requires o + |f| + |b| <= |data| && data[o..o + |f| + |b|] == f + b
    ensures data[o..o + |f|] == f && data[o + |f|..o + |f| + |b|] == b
  {
    var x := data[o..o + |f| + |b|];
    assert data[o..o + |f|] == x[..|f|] && data[o + |f|..o + |f| + |b|] == x[|f|..];
  }

  lemma EncodeSnoc(args: seq<Arg>)
    requires args != [] && EncodeArgs(args).Ok?
    ensures EncodeArgs(args[..|args| - 1]).Ok? && EncodeArg(args[|args| - 1]).Ok?
    ensures var f, b := EncodeArgs(args[..|args| - 1]).value, EncodeArg(args[|args| - 1]).value;
      EncodeArgs(args).value == Encoded(f.tags + [b.0], f.bytes + b.1)
  {
  }

  predicate StoredAt(data: seq<byte>, at: nat, bytes: seq<byte>) {
    at + |bytes| <= |data| && data[at..at + |bytes|] == bytes
  }

  /** `read` gives back every encoded argument it is pointed at. */
  ghost predicate ReadsBack(read: ArgReader, data: seq<byte>) {
    forall arg, at :: ReadsBackAt(read, data, arg, at)
  }

  ghost predicate ReadsBackAt(read: ArgReader, data: seq<byte>, arg: Arg, at: nat) {
    EncodeArg(arg).Ok? && ArgNulFree(arg) && Aligned(at) && StoredAt(data, at, EncodeArg(arg).value.1) ==>
      read(EncodeArg(arg).value.0, at) == Ok((arg, at + |EncodeArg(arg).value.1|))
  }

  lemma ParserReadsBack(data: seq<byte>)
    ensures ReadsBack(ReaderOf(data), data)
  {
    forall arg, at
      ensures ReadsBackAt(ReaderOf(data), data, arg, at)
    {
      if EncodeArg(arg).Ok? && ArgNulFree(arg) && Aligned(at) && StoredAt(data, at, EncodeArg(arg).value.1) {
        ArgRoundTripAt(data, at, arg);
      }
    }
  }

  lemma ReadNext(read: ArgReader, data: seq<byte>, arg: Arg, at: nat, tag: char, bytes: seq<byte>)
    requires ReadsBack(read, data) && EncodeArg(arg) == Ok((tag, bytes)) && ArgNulFree(arg)
    requires Aligned(at) && StoredAt(data, at, bytes)
    ensures read(tag, at) == Ok((arg, at + |bytes|))
  {
    assert ReadsBackAt(read, data, arg, at);
  }

  lemma {:induction false} ArgsRoundTripAt(read: ArgReader, data: seq<byte>, o: nat, args: seq<Arg>, e: Encoded)
    requires ReadsBack(read, data) && Aligned(o) && EncodeArgs(args) == Ok(e)
    requires forall i :: 0 <= i < |args| ==> ArgNulFree(args[i])
    requires StoredAt(data, o, e.bytes)
    ensures Walks(read, e.tags, o, args, o + |e.bytes|)
    decreases |args|
  {
    if args != [] {
      hide EncodeArg, Aligned;
      var front, last := args[..|args| - 1], args[|args| - 1];
      EncodeSnoc(args);
      var f, b := EncodeArgs(front).value, EncodeArg(last).value;
      SliceSplit(data, o, f.bytes, b.1);
      ArgsRoundTripAt(read, data, o, front, f);
      ArgumentBytesAreAligned(front);
      AlignedSum(o, |f.bytes|);
      ReadNext(read, data, last, o + |f.bytes|, b.0, b.1);
      WalksSnoc(read, f.tags, b.0, o, front, o + |f.bytes|, last, o + |f.bytes| + |b.1|);
      assert front + [last] == args;
    }
  }

  lemma TailIsStored(header: seq<byte>, tail: seq<byte>)
    ensures StoredAt(header + tail, |header|, tail)
  {
  }

  lemma {:induction false} BodyRoundTrip(header: seq<byte>, args: seq<Arg>, e: Encoded, data: seq<byte>)
    requires Aligned(|header|) && EncodeArgs(args) == Ok(e) && data == header + e.bytes
    requires forall i :: 0 <= i < |args| ==> ArgNulFree(args[i])
    ensures ParseArgs(data, e.tags, |header|) == Ok(args)
  {
    ParserReadsBack(data);
    TailIsStored(header, e.bytes);
    ArgsRoundTripAt(ReaderOf(data), data, |header|, args, e);
    WalksParse(data, e.tags, |header|, args, |header| + |e.bytes|);
  }

  // ---- what the parser can ever return ----

  lemma StringsReadAreNulFree(data: seq<byte>, offset: nat)
    ensures ReadOscString(data, offset).Ok? ==> NulFree(ReadOscString(data, offset).value.0)
  {
    var end := FindNul(data, offset);
    if end < |data| {
      forall i | 0 <= i < end - offset
        ensures Decode(data[offset..end])[i] != '\0'
      {
        assert data[offset..end][i] == data[offset + i];
      }
    }
  }

  lemma {:induction false} ArgsReadAreNulFree(data: seq<byte>, tags: string, offset: nat)
    requires ParseArgs(data, tags, offset).Ok?
    ensures forall i :: 0 <= i < |ParseArgs(data, tags, offset).value| ==>
        ArgNulFree(ParseArgs(data, tags, offset).value[i])
    decreases |tags|
  {
    if tags != [] {
      StringsReadAreNulFree(data, offset);
      ArgsReadAreNulFree(data, tags[1..], ParseArg(data, tags[0], offset).value.1);
    }
  }

  predicate Transparent(m: Message) {
    && "/" <= m.address
    && NulFree(m.address)
    && forall i :: 0 <= i < |m.args| ==> ArgNulFree(m.args[i])
  }

  lemma MessagesReadAreTransparent(data: seq<byte>)
    requires Parse(data).Ok?
    ensures Transparent(Parse(data).value)
  {
    StringsReadAreNulFree(data, 0);
    var (address, offset) := ReadOscString(data, 0).value;
    if offset < |data| {
      var (tags, first) := ReadOscString(data, offset).value;
      ArgsReadAreNulFree(data, tags[1..], first);
    }
  }

  lemma HeaderRoundTrip(address: string, tags: string, bytes: seq<byte>)
    requires IsAscii(address) && NulFree(address) && IsAscii(tags) && NulFree(tags)
    ensures var a, t := OscStringBytes(address), OscStringBytes(tags);
      && ReadOscString(a + t + bytes, 0) == Ok((address, |a|))
      && ReadOscString(a + t + bytes, |a|) == Ok((tags, |a| + |t|))
      && Aligned(|a| + |t|)
  {
    var a, t := OscStringBytes(address), OscStringBytes(tags);
    assert [] + a + (t + bytes) == a + t + bytes;
    StringRoundTrip([], address, t + bytes);
    StringRoundTrip(a, tags, bytes);
    AlignedSum(|a|, |t|);
  }

  lemma NotABundle(address: string, rest: seq<byte>)
    requires IsAscii(address) && "/" <= address
    ensures !(BUNDLE_MARKER <= OscStringBytes(address) + rest)
  {
    var data := OscStringBytes(address) + rest;
    assert address[0] == '/';
    assert data[0] == 47;
    assert BUNDLE_MARKER[0] == 35;
  }

  lemma ParseParts(data: seq<byte>, address: string, offset: nat, tags: string, first: nat, args: seq<Arg>)
    requires !(BUNDLE_MARKER <= data) && offset < |data| && "/" <= address
    requires ReadOscString(data, 0) == Ok((address, offset))
    requires ReadOscString(data, offset) == Ok(("," + tags, first))
    requires ParseArgs(data, tags, first) == Ok(args)
    ensures Parse(data) == Ok(Message(address, args))
  {
    assert ("," + tags)[1..] == tags;
  }

  lemma PacketHeader(address: string, tags: string, bytes: seq<byte>, a: seq<byte>, t: seq<byte>, data: seq<byte>)
    requires IsAscii(address) && "/" <= address && NulFree(address) && IsAscii(tags) && NulFree(tags)
    requires a == OscStringBytes(address) && t == OscStringBytes(tags) && data == a + t + bytes
    ensures !(BUNDLE_MARKER <= data) && |a| < |data|
    ensures ReadOscString(data, 0) == Ok((address, |a|)) && ReadOscString(data, |a|) == Ok((tags, |a| + |t|))
    ensures Aligned(|a| + |t|)
  {
    assert !(BUNDLE_MARKER <= data) by {
      NotABundle(address, t + bytes);
      assert data == a + (t + bytes);
    }
    HeaderRoundTrip(address, tags, bytes);
  }

  lemma HeaderAndBody(m: Message, e: Encoded, n: nat, header: seq<byte>, data: seq<byte>)
    requires EncodeArgs(m.args) == Ok(e) && Transparent(m) && Aligned(|header|) && data == header + e.bytes
    requires !(BUNDLE_MARKER <= data) && n < |data|
    requires ReadOscString(data, 0) == Ok((m.address, n)) && ReadOscString(data, n) == Ok(("," + e.tags, |header|))
    ensures Parse(data) == Ok(m)
  {
    BodyRoundTrip(header, m.args, e, data);
    ParseParts(data, m.address, n, e.tags, |header|, m.args);
  }

  /** Every packet that can be built parses back to the message it was built from, exactly when the
      address starts with "/" and no string has a NUL in it. */
  lemma {:induction false} RoundTrip(m: Message)
    requires Build(m).Ok?
    ensures Parse(Build(m).value) == Ok(m) <==> Transparent(m)
  {
    if Transparent(m) {
      hide Parse, ReadOscString, EncodeArgs, OscStringBytes;
      TagsAreAscii(m.args);
      var e, data := EncodeArgs(m.args).value, Build(m).value;
      var a, t := OscStringBytes(m.address), OscStringBytes("," + e.tags);
      PacketHeader(m.address, "," + e.tags, e.bytes, a, t, data);
      HeaderAndBody(m, e, |a|, a + t, data);
    } else if Parse(Build(m).value).Ok? {
      MessagesReadAreTransparent(Build(m).value);
    }
  }

  /** When building succeeds: ASCII text, 32-bit integers, blobs below 4 GiB, no nil. */
  predicate Buildable(arg: Arg) {
    match arg
    case Int(i) => IsInt32(i)
    case Str(s) => IsAscii(s)
    case Blob(data) => |data| < 0x100000000
    case Nil => false
    case _ => true
  }

  lemma {:induction false} BuildSucceeds(m: Message)
    ensures Build(m).Ok? <==> IsAscii(m.address) && forall i :: 0 <= i < |m.args| ==> Buildable(m.args[i])
  {
    EncodeSucceeds(m.args);
  }

  lemma {:induction false} EncodeSucceeds(args: seq<Arg>)
    ensures EncodeArgs(args).Ok? <==> forall i :: 0 <= i < |args| ==> Buildable(args[i])
  {
    if args != [] {
      EncodeSucceeds(args[..|args| - 1]);
      assert Buildable(args[|args| - 1]) <==> EncodeArg(args[|args| - 1]).Ok?;
    }
  }
}

/** The OSC packet format said without a parser, and the exact language that the parser accepts. */
module OscFormat {
  import opened Common
  import opened Bits
  import opened OscFraming

  // ---- the format ----

  /** `text` is stored at `at`: its bytes, those beyond ASCII unreadable, the first zero byte, and then up to the next
      multiple of four, where `next` is. */
  ghost predicate StringAt(data: seq<byte>, at: nat, text: string, next: nat) {
    var end := at + |text|;
    && end < |data| && data[end] == 0
    && (forall k :: at <= k < end ==> data[k] != 0)
    && (forall k :: 0 <= k < |text| ==> CharIs(text[k], data[at + k]))
    && next % 4 == 0 && end + 1 <= next < end + 5
  }

  predicate CharIs(c: char, b: byte) {
    if b < 128 then c as int == b else c == '\U{FFFD}'
  }

  /** The four bytes at `at` as a number, the most significant first. */
  function Word(data: seq<byte>, at: nat): nat
    requires at + 4 <= |data|
  {
    0x1000000 * data[at] as int + 0x10000 * data[at + 1] as int + 0x100 * data[at + 2] as int + data[at + 3] as int
  }

  /** The value `arg` with type tag `tag` is stored at `at`, and the next one at `next`. */
  ghost predicate ArgAt(data: seq<byte>, tag: char, at: nat, arg: Arg, next: nat) {
    match arg
    case Int(n) =>
      && tag == 'i' && next == at + 4 <= |data|
      && -0x80000000 <= n < 0x80000000 && n == Word(data, at) - (if n < 0 then 0x100000000 else 0)
    case Float(bits) => tag == 'f' && next == at + 4 <= |data| && bits == data[at..at + 4]
    case Str(text) => tag == 's' && StringAt(data, at, text, next)
    case Blob(bytes) =>
      && tag == 'b' && at + 4 + |bytes| <= |data|
      && |bytes| == Word(data, at) && bytes == data[at + 4..at + 4 + |bytes|]
      && next % 4 == 0 && at + 4 + |bytes| <= next < at + 8 + |bytes|
    case Bool(flag) => (if flag then tag == 'T' || tag == 'I' else tag == 'F') && next == at
    case Nil => tag == 'N' && next == at
  }

  ghost predicate ArgsAt(data: seq<byte>, tags: string, at: nat, args: seq<Arg>)
    decreases |tags|
  {
    if tags == [] || args == [] then tags == [] && args == []
    else exists next: nat :: ArgAt(data, tags[0], at, args[0], next) && ArgsAt(data, tags[1..], next, args[1..])
  }

  /** An address from "/", and behind it nothing, or a type tag string from "," with the values of its tags. */
  ghost predicate IsMessage(data: seq<byte>, m: Message) {
    && m.address != [] && m.address[0] == '/'
    && exists next: nat :: StringAt(data, 0, m.address, next) && IsBody(data, next, m.args)
  }

  ghost predicate IsBody(data: seq<byte>, at: nat, args: seq<Arg>) {
    if at >= |data| then args == []
    else exists tags: string, first: nat :: StringAt(data, at, "," + tags, first) && ArgsAt(data, tags, first, args)
  }

  // ---- reading one string or value ----

  lemma ReadsTheString(data: seq<byte>, at: nat, text: string, next: nat)
    ensures ReadOscString(data, at) == Ok((text, next)) <==> StringAt(data, at, text, next)
  {
    if StringAt(data, at, text, next) {
      NulFoundAt(data, at, at + |text|);
      assert Decode(data[at..at + |text|]) == text;
      NextMultiple(at + |text| + 1, next);
    }
    if ReadOscString(data, at) == Ok((text, next)) {
      var end := FindNul(data, at);
      forall k | 0 <= k < |text| ensures CharIs(text[k], data[at + k]) {
        assert text[k] == DecodeByte(data[at..end][k]);
      }
      NextMultiple(at + |text| + 1, next);
    }
  }

  lemma NextMultiple(n: nat, next: nat)
    ensures next == n + Padding(n) <==> next % 4 == 0 && n <= next < n + 4
  {
  }

  lemma WordIsBigEndian(data: seq<byte>, at: nat)
    requires at + 4 <= |data|
    ensures FromBigEndian(data[at..at + 4]) == Word(data, at)
  {
    var b := data[at..at + 4];
    assert b[..3][..2] == b[..2] && b[..2][..1] == b[..1] && b[..1][..0] == [];
    assert FromBytes(b[..1]) == b[0] as int;
    assert FromBytes(b[..2]) == 256 * FromBytes(b[..1]) + b[1] as int;
    assert FromBytes(b[..3]) == 256 * FromBytes(b[..2]) + b[2] as int;
  }

  lemma ReadsTheArgument(data: seq<byte>, tag: char, at: nat, arg: Arg, next: nat)
    ensures ParseArg(data, tag, at) == Ok((arg, next)) <==> ArgAt(data, tag, at, arg, next)
  {
    if at + 4 <= |data| {
      WordIsBigEndian(data, at);
      var size := Word(data, at);
      NextMultiple(at + 4 + size, next);
    }
    if arg.Str? {
      ReadsTheString(data, at, arg.text, next);
    }
  }

  lemma {:induction false} ReadsTheArguments(data: seq<byte>, tags: string, at: nat, args: seq<Arg>)
    ensures ParseArgs(data, tags, at) == Ok(args) <==> ArgsAt(data, tags, at, args)
    decreases |tags|
  {
    if tags != [] {
      hide ParseArg, ArgAt;
      if ParseArgs(data, tags, at) == Ok(args) {
        var (arg, next) := ParseArg(data, tags[0], at).value;
        ReadsTheArgument(data, tags[0], at, arg, next);
        ReadsTheArguments(data, tags[1..], next, args[1..]);
        assert args[0] == arg;
      }
      if args != [] && ArgsAt(data, tags, at, args) {
        var next: nat :| ArgAt(data, tags[0], at, args[0], next) && ArgsAt(data, tags[1..], next, args[1..]);
        ReadsTheArgument(data, tags[0], at, args[0], next);
        ReadsTheArguments(data, tags[1..], next, args[1..]);
        assert args == [args[0]] + args[1..];
      }
    }
  }

  // ---- the language of the parser ----

  lemma ReadsTheBody(data: seq<byte>, address: string, at: nat, args: seq<Arg>)
    requires data != [] && !(BUNDLE_MARKER <= data) && ReadOscString(data, 0) == Ok((address, at)) && "/" <= address
    ensures Parse(data) == Ok(Message(address, args)) <==> IsBody(data, at, args)
  {
    hide ParseArgs, ReadOscString, StringAt, ArgsAt;
    if at < |data| {
      if Parse(data) == Ok(Message(address, args)) {
        var (tags, first) := ReadOscString(data, at).value;
        assert tags == "," + tags[1..];
        ReadsTheString(data, at, tags, first);
        ReadsTheArguments(data, tags[1..], first, args);
      }
      if IsBody(data, at, args) {
        var tags: string, first: nat :| StringAt(data, at, "," + tags, first) && ArgsAt(data, tags, first, args);
        ReadsTheString(data, at, "," + tags, first);
        ReadsTheArguments(data, tags, first, args);
        assert ("," + tags)[1..] == tags;
      }
    }
  }

  lemma NoBundle(data: seq<byte>, address: string, next: nat)
    requires StringAt(data, 0, address, next) && address != [] && address[0] == '/'
    ensures data != [] && !(BUNDLE_MARKER <= data)
  {
    assert CharIs(address[0], data[0]);
    assert BUNDLE_MARKER[0] == 35;
  }

  /** The parser accepts exactly the packets of the format, and returns the message they hold. */
  lemma ParsesExactlyTheFormat(data: seq<byte>, m: Message)
    ensures Parse(data) == Ok(m) <==> IsMessage(data, m)
  {
    hide ParseArgs, ReadOscString, StringAt, ArgsAt, IsBody;
    if Parse(data) == Ok(m) {
      var next := ReadOscString(data, 0).value.1;
      ReadsTheString(data, 0, m.address, next);
      ReadsTheBody(data, m.address, next, m.args);
    }
    if IsMessage(data, m) {
      var next: nat :| StringAt(data, 0, m.address, next) && IsBody(data, next, m.args);
      ReadsTheString(data, 0, m.address, next);
      NoBundle(data, m.address, next);
      ReadsTheBody(data, m.address, next, m.args);
    }
  }

  // ---- packets written by others ----

  /** `bytes` is the ASCII text `s` with one to four zeros behind it, up to a multiple of four. */
  ghost predicate IsPadded(bytes: seq<byte>, s: string) {
    && |bytes| % 4 == 0 && |s| < |bytes| <= |s| + 4
    && (forall k :: 0 <= k < |s| ==> 0 < s[k] as int == bytes[k] < 128)
    && forall k :: |s| <= k < |bytes| ==> bytes[k] == 0
  }

  lemma PaddedIsStored(before: seq<byte>, bytes: seq<byte>, s: string, after: seq<byte>)
    requires |before| % 4 == 0 && IsPadded(bytes, s)
    ensures StringAt(before + bytes + after, |before|, s, |before| + |bytes|)
  {
    var data := before + bytes + after;
    forall k | 0 <= k <= |s| ensures data[|before| + k] == bytes[k] {
    }
  }

  /** The builder pads every NUL-free string so. */
  lemma StringsArePadded(s: string)
    requires IsAscii(s) && NulFree(s)
    ensures IsPadded(OscStringBytes(s), s)
  {
  }

  /** What is sent for one argument. */
  ghost predicate IsEncoding(arg: Arg, tag: char, bytes: seq<byte>) {
    match arg
    case Int(n) => tag == 'i' && |bytes| == 4 && Word(bytes, 0) == n % 0x100000000
    case Float(bits) => tag == 'f' && bytes == bits
    case Str(text) => tag == 's' && (NulFree(text) ==> IsPadded(bytes, text))
    case Blob(data) =>
      && tag == 'b' && |bytes| % 4 == 0 && |data| + 4 <= |bytes| < |data| + 8
      && Word(bytes, 0) == |data| && bytes[4..4 + |data|] == data
      && forall k :: 4 + |data| <= k < |bytes| ==> bytes[k] == 0
    case Bool(flag) => bytes == [] && tag == if flag then 'T' else 'F'
    case Nil => false
  }

  /** The builder's encoding of every argument it accepts. */
  lemma ArgumentsAreEncoded(arg: Arg)
    ensures EncodeArg(arg).Ok? ==> IsEncoding(arg, EncodeArg(arg).value.0, EncodeArg(arg).value.1)
  {
    match arg
    case Int(n) =>
      if IsInt32(n) {
        WordRoundTrip(ToUnsigned(n));
      }
    case Str(text) =>
      if IsAscii(text) && NulFree(text) {
        StringsArePadded(text);
      }
    case Blob(data) =>
      if |data| < 0x100000000 {
        WordRoundTrip(|data|);
        AlignedSum(4, |data| + Padding(|data|));
        var bytes := BigEndian(|data|) + data + ZeroBytes(Padding(|data|));
        assert bytes[..4] == BigEndian(|data|)[..4];
        assert forall k :: 0 <= k < 4 ==> bytes[k] == BigEndian(|data|)[k];
      }
    case _ =>
  }

  lemma WordRoundTrip(n: nat)
    requires n < 0x100000000
    ensures Word(BigEndian(n), 0) == n
  {
    BigEndianRoundTrip(n);
    WordIsBigEndian(BigEndian(n), 0);
    assert BigEndian(n)[0..4] == BigEndian(n);
  }

  /** An address alone, as older senders write it, is a message without arguments. */
  lemma AddressAlone(address: string, bytes: seq<byte>)
    requires IsPadded(bytes, address) && "/" <= address
    ensures Parse(bytes) == Ok(Message(address, []))
  {
    PaddedIsStored([], bytes, address, []);
    assert [] + bytes + [] == bytes;
    ParsesExactlyTheFormat(bytes, Message(address, []));
  }

  /** Behind an address and a tag string the values of the tags are the arguments. */
  lemma AddressTagsValues(
      address: string, a: seq<byte>, tags: string, t: seq<byte>, values: seq<byte>, args: seq<Arg>)
    requires IsPadded(a, address) && "/" <= address && IsPadded(t, "," + tags)
    requires ArgsAt(a + t + values, tags, |a| + |t|, args)
    ensures Parse(a + t + values) == Ok(Message(address, args))
  {
    hide ArgsAt;
    var data := a + t + values;
    PaddedIsStored([], a, address, t + values);
    assert [] + a + (t + values) == data;
    PaddedIsStored(a, t, "," + tags, values);
    ParsesExactlyTheFormat(data, Message(address, args));
  }

  /** The tags that have no bytes: `T` and `I` are true, `F` is false, `N` is nil. */
  function Flag(tag: char): Arg {
    if tag == 'N' then Nil else Bool(tag != 'F')
  }

  lemma FlagsHaveNoBytes(address: string, a: seq<byte>, tags: string, t: seq<byte>, args: seq<Arg>)
    requires IsPadded(a, address) && "/" <= address && IsPadded(t, "," + tags)
    requires forall k :: 0 <= k < |tags| ==> tags[k] == 'T' || tags[k] == 'I' || tags[k] == 'F' || tags[k] == 'N'
    requires |args| == |tags| && forall k :: 0 <= k < |tags| ==> args[k] == Flag(tags[k])
    ensures Parse(a + t) == Ok(Message(address, args))
  {
    FlagsAt(a + t, tags, |a| + |t|, args);
    assert a + t + [] == a + t;
    AddressTagsValues(address, a, tags, t, [], args);
  }

  lemma {:induction false} FlagsAt(data: seq<byte>, tags: string, at: nat, args: seq<Arg>)
    requires forall k :: 0 <= k < |tags| ==> tags[k] == 'T' || tags[k] == 'I' || tags[k] == 'F' || tags[k] == 'N'
    requires |args| == |tags| && forall k :: 0 <= k < |tags| ==> args[k] == Flag(tags[k])
    ensures ArgsAt(data, tags, at, args)
    decreases |tags|
  {
    if tags != [] {
      FlagsAt(data, tags[1..], at, args[1..]);
      assert ArgAt(data, tags[0], at, args[0], at);
    }
  }

  // ---- what is refused, and why ----

  /** No string is stored at `at`: there is no zero byte from there on. */
  ghost predicate Unterminated(data: seq<byte>, at: nat) {
    forall k :: at <= k < |data| ==> data[k] != 0
  }

  /** The value at `at` is the first that cannot be read. */
  ghost predicate ArgFails(data: seq<byte>, tag: char, at: nat, e: OscError) {
    match e
    case TruncatedArgument =>
      || ((tag == 'i' || tag == 'f' || tag == 'b') && at + 4 > |data|)
      || (tag == 'b' && at + 4 <= |data| < at + 4 + Word(data, at))
    case UnterminatedString => tag == 's' && Unterminated(data, at)
    case UnsupportedTag(c) => c == tag && tag !in {'i', 'f', 's', 'b', 'T', 'I', 'F', 'N'}
    case _ => false
  }

  ghost predicate ArgsFail(data: seq<byte>, tags: string, at: nat, e: OscError)
    decreases |tags|
  {
    tags != [] &&
    (ArgFails(data, tags[0], at, e) ||
     exists arg, next: nat :: ArgAt(data, tags[0], at, arg, next) && ArgsFail(data, tags[1..], next, e))
  }

  lemma UnreadableString(data: seq<byte>, at: nat)
    ensures ReadOscString(data, at).Err? <==> Unterminated(data, at)
    ensures ReadOscString(data, at).Err? ==> ReadOscString(data, at).error == UnterminatedString
  {
  }

  lemma UnreadableArgument(data: seq<byte>, tag: char, at: nat, e: OscError)
    ensures ParseArg(data, tag, at) == Err(e) <==> ArgFails(data, tag, at, e)
  {
    UnreadableString(data, at);
    if at + 4 <= |data| {
      WordIsBigEndian(data, at);
    }
  }

  lemma {:induction false} UnreadableArguments(data: seq<byte>, tags: string, at: nat, e: OscError)
    ensures ParseArgs(data, tags, at) == Err(e) <==> ArgsFail(data, tags, at, e)
    decreases |tags|
  {
    if tags != [] {
      hide ParseArg, ArgAt, ArgFails;
      UnreadableArgument(data, tags[0], at, e);
      if ParseArg(data, tags[0], at).Ok? {
        var (arg, next) := ParseArg(data, tags[0], at).value;
        ReadsTheArgument(data, tags[0], at, arg, next);
        UnreadableArguments(data, tags[1..], next, e);
      }
      forall arg, next: nat | ArgAt(data, tags[0], at, arg, next)
        ensures ParseArg(data, tags[0], at) == Ok((arg, next))
      {
        ReadsTheArgument(data, tags[0], at, arg, next);
      }
    }
  }

  /** The error of every packet that is refused. */
  lemma RefusesExactly(data: seq<byte>, e: OscError)
    ensures Parse(data) == Err(e) <==>
      if [0x23, 0x62, 0x75, 0x6E, 0x64, 0x6C, 0x65, 0x00] <= data then e == BundleNotSupported
      else if data == [] then e == EmptyPacket
      else if Unterminated(data, 0) then e == UnterminatedString
      else exists address: string, at: nat :: StringAt(data, 0, address, at) && BodyFails(data, address, at, e)
  {
    hide ReadOscString, StringAt, BodyFails;
    UnreadableString(data, 0);
    if !(BUNDLE_MARKER <= data) && data != [] && !Unterminated(data, 0) {
      var (address, at) := ReadOscString(data, 0).value;
      ReadsTheString(data, 0, address, at);
      RefusesTheBody(data, address, at, e);
      forall other: string, next: nat | StringAt(data, 0, other, next)
        ensures other == address && next == at
      {
        ReadsTheString(data, 0, other, next);
      }
    }
  }

  ghost predicate BodyFails(data: seq<byte>, address: string, at: nat, e: OscError) {
    if !("/" <= address) then e == AddressWithoutSlash
    else if at >= |data| then false
    else if Unterminated(data, at) then e == UnterminatedString
    else exists tags: string, first: nat ::
      StringAt(data, at, tags, first)
      && if "," <= tags then ArgsFail(data, tags[1..], first, e) else e == MissingTypeTags
  }

  lemma RefusesTheBody(data: seq<byte>, address: string, at: nat, e: OscError)
    requires data != [] && !(BUNDLE_MARKER <= data) && ReadOscString(data, 0) == Ok((address, at))
    ensures Parse(data) == Err(e) <==> BodyFails(data, address, at, e)
  {
    hide ParseArgs, ReadOscString, StringAt, ArgsFail;
    UnreadableString(data, at);
    if "/" <= address && at < |data| && !Unterminated(data, at) {
      var (tags, first) := ReadOscString(data, at).value;
      ReadsTheString(data, at, tags, first);
      if "," <= tags {
        UnreadableArguments(data, tags[1..], first, e);
      }
      forall other: string, next: nat | StringAt(data, at, other, next)
        ensures other == tags && next == first
      {
        ReadsTheString(data, at, other, next);
      }
    }
  }
}

/** The bridge types shared by the test contracts: the Lux -> Wei packing of
    a withdrawal amount into 32 big-endian bytes and its recovery, the
    framing of a DuskDS public key at the head of a withdrawal's extra data,
    and the `0x` hex form of an EVM address. BLS key arithmetic is outside
    the model: a public key is its compressed and raw byte forms, and the
    compressed size is a parameter. */
module BridgeTypes {
  import opened Common
  import opened Hex

  const U64: nat := 0x1_0000_0000_0000_0000
  const U128: nat := 0x1_0000_0000_0000_0000_0000_0000_0000_0000
  /** Wei per Lux. */
  const Gwei: nat := 1_000_000_000
  /** The raw size of a BLS12-381 G2 point. */
  const PkRawSize: nat := 193
  /** The length of an EVM address. */
  const EvmAddressLen: nat := 20

  // ---------------------------------------------------------------------
  // Big-endian integers
  // ---------------------------------------------------------------------

  /** 256^n, the exclusive bound of an `n`-byte unsigned integer. */
  function Pow256(n: nat): (r: nat)
    ensures r >= 1
  {
    if n == 0 then 1 else Pow256(n - 1) * 256
  }

  /** `to_be_bytes` of an `n`-byte unsigned integer. */
  function BeBytes(v: nat, n: nat): (r: seq<byte>)
    ensures |r| == n
  {
    if n == 0 then [] else BeBytes(v / 256, n - 1) + [(v % 256) as byte]
  }

  /** `from_be_bytes` */
  function BeValue(bs: seq<byte>): nat
    decreases |bs|
  {
    if bs == [] then 0 else BeValue(bs[..|bs| - 1]) * 256 + bs[|bs| - 1] as nat
  }

  /** Encoding a value that fits and decoding it gives the value back. */
  lemma {:induction false} BeValueOfBytes(v: nat, n: nat)
    requires v < Pow256(n)
    ensures BeValue(BeBytes(v, n)) == v
    decreases n
  {
    if n > 0 {
      assert v / 256 < Pow256(n - 1);
      BeValueOfBytes(v / 256, n - 1);
      var bs := BeBytes(v, n);
      assert bs[..|bs| - 1] == BeBytes(v / 256, n - 1);
    }
  }

  lemma PowersOfTwo()
    ensures Pow256(8) == U64 && Pow256(16) == U128
  {
  }

  // ---------------------------------------------------------------------
  // Amounts
  // ---------------------------------------------------------------------

  /** The packed amount of a withdrawal request: sixteen zero bytes, then
      the amount in Wei as a big-endian u128. */
  function AmountBytes(amount: nat): seq<byte> {
    Zeros(16) + BeBytes(amount * Gwei, 16)
  }

  /** The amount `try_from` recovers: the low sixteen bytes as a u128,
      divided by 10^9, truncated to u64. */
  function UnpackAmount(amount: seq<byte>): nat
    requires |amount| == 32
  {
    (BeValue(amount[16..32]) / Gwei) % U64
  }

  /** The Wei value of a u64 amount always fits in a u128. */
  lemma WeiFits(amount: nat)
    requires amount < U64
    ensures amount * Gwei < U128
  {
    assert amount * Gwei <= (U64 - 1) * Gwei;
  }

  /** The packed amount is 32 bytes whose top half is zero and whose low
      half reads as the amount in Wei. */
  lemma AmountBytesLayout(amount: nat)
    requires amount < U64
    ensures var bs := AmountBytes(amount);
            |bs| == 32 && bs[..16] == Zeros(16) && BeValue(bs[16..]) == amount * Gwei
  {
    WeiFits(amount);
    PowersOfTwo();
    BeValueOfBytes(amount * Gwei, 16);
    var bs := AmountBytes(amount);
    assert bs[16..] == BeBytes(amount * Gwei, 16);
  }

  /** Packing then unpacking gives every u64 amount back. */
  lemma AmountRoundTrip(amount: nat)
    requires amount < U64
    ensures UnpackAmount(AmountBytes(amount)) == amount
  {
    AmountBytesLayout(amount);
    var bs := AmountBytes(amount);
    assert bs[16..32] == bs[16..];
    assert (amount * Gwei) / Gwei == amount;
  }

  /** `let wei = u128::from(amount) * 1_000_000_000`, copied into the low
      half of a zeroed 32-byte buffer. */
  method PackAmount(amount: nat) returns (bytes: seq<byte>)
    requires amount < U64
    ensures bytes == AmountBytes(amount)
  {
    var wei := amount * Gwei;
    var be := BeBytes(wei, 16);
    var buf := new byte[32](_ => 0);
    forall i | 16 <= i < 32 {
      buf[i] := be[i - 16];
    }
    bytes := buf[..];
    assert bytes == Zeros(16) + be;
  }

  // ---------------------------------------------------------------------
  // DuskDS key framing
  // ---------------------------------------------------------------------

  /** A DuskDS public key by its two byte forms: `to_bytes` (compressed,
      `size` bytes) and `to_raw_bytes` (193 bytes). */
  datatype PublicKey = PublicKey(compressed: seq<byte>, raw: seq<byte>)

  predicate WellFormedKey(pk: PublicKey, size: nat) {
    |pk.compressed| == size && |pk.raw| == PkRawSize
  }

  datatype DecodeError = InvalidEncoding

  function DecodeMessage(e: DecodeError): string {
    "The `DuskDS` encoding is not valid."
  }

  /** The frame of a key: 8-byte big-endian compressed size, the compressed
      key, 8-byte big-endian raw size (193), the raw key. */
  function DsEncoding(pk: PublicKey, size: nat): seq<byte> {
    BeBytes(size, 8) + pk.compressed + BeBytes(PkRawSize, 8) + pk.raw
  }

  /** `encode_ds_address`: four `extend_from_slice` calls. */
  method EncodeDsAddress(pk: PublicKey, size: nat) returns (encoding: seq<byte>)
    ensures encoding == DsEncoding(pk, size)
  {
    encoding := [];
    encoding := encoding + BeBytes(size, 8);
    encoding := encoding + pk.compressed;
    encoding := encoding + BeBytes(PkRawSize, 8);
    encoding := encoding + pk.raw;
  }

  /** `decode_ds_address`: the frame at the head of `data`; bytes after it
      are ignored. */
  function DecodeDsAddress(data: seq<byte>, size: nat): (r: Result<PublicKey, DecodeError>)
    ensures r.Err? <==>
            |data| < 16 + size + PkRawSize ||
            BeValue(data[..8]) != size || BeValue(data[8 + size..16 + size]) != PkRawSize
    ensures r.Ok? ==> (WellFormedKey(r.value, size) &&
                       r.value.compressed == data[8..8 + size] &&
                       r.value.raw == data[16 + size..16 + size + PkRawSize])
  {
    if |data| < 16 + size + PkRawSize then Err(InvalidEncoding)
    else if BeValue(data[..8]) != size then Err(InvalidEncoding)
    else if BeValue(data[8 + size..16 + size]) != PkRawSize then Err(InvalidEncoding)
    else Ok(PublicKey(data[8..8 + size], data[16 + size..16 + size + PkRawSize]))
  }

  /** A framed key decodes back to itself, whatever follows the frame. */
  lemma DecodeEncoded(pk: PublicKey, size: nat, extra: seq<byte>)
    requires WellFormedKey(pk, size) && size < U64
    ensures DecodeDsAddress(DsEncoding(pk, size) + extra, size) == Ok(pk)
  {
    var h1 := BeBytes(size, 8);
    var h2 := BeBytes(PkRawSize, 8);
    var data := DsEncoding(pk, size) + extra;
    assert data == h1 + pk.compressed + h2 + pk.raw + extra;
    PowersOfTwo();
    BeValueOfBytes(size, 8);
    BeValueOfBytes(PkRawSize, 8);
    assert data[..8] == h1;
    assert data[8..8 + size] == pk.compressed;
    assert data[8 + size..16 + size] == h2;
    assert data[16 + size..16 + size + PkRawSize] == pk.raw;
  }

  // ---------------------------------------------------------------------
  // Withdrawals
  // ---------------------------------------------------------------------

  /** A DuskDS address; only the external-key form is built here. */
  datatype Address = External(pk: PublicKey) | ContractAddress(id: seq<byte>)

  datatype WithdrawalRequest = WithdrawalRequest(
    id: seq<byte>, from: seq<byte>, amount: seq<byte>, extraData: seq<byte>)

  datatype PendingWithdrawal = PendingWithdrawal(
    from: seq<byte>, to: Address, amount: nat, blockHeight: nat)

  /** `WithdrawalRequest::new`: the amount in Wei, packed, and the key's
      frame put in front of the caller's extra data. */
  method NewWithdrawalRequest(id: seq<byte>, from: seq<byte>, to: PublicKey, amount: nat,
                              extraData: seq<byte>, size: nat)
    returns (w: WithdrawalRequest)
    requires amount < U64
    ensures w.id == id && w.from == from
    ensures w.amount == AmountBytes(amount)
    ensures w.extraData == DsEncoding(to, size) + extraData
  {
    var newExtraData := EncodeDsAddress(to, size);
    newExtraData := newExtraData + extraData;
    var packed := PackAmount(amount);
    w := WithdrawalRequest(id, from, packed, newExtraData);
  }

  /** What `try_from` yields: the decoded key as the receiver, the unpacked
      amount, and `u64::MAX` as the block height; a bad frame is an error. */
  function PendingOf(w: WithdrawalRequest, size: nat): Result<PendingWithdrawal, DecodeError>
    requires |w.amount| == 32
  {
    var to := DecodeDsAddress(w.extraData, size);
    if to.Err? then Err(to.error)
    else Ok(PendingWithdrawal(w.from, External(to.value), UnpackAmount(w.amount), U64 - 1))
  }

  /** `TryFrom<WithdrawalRequest> for PendingWithdrawal`: the low half of
      the amount is copied into a 16-byte buffer and read as a u128. */
  method TryFromRequest(w: WithdrawalRequest, size: nat) returns (r: Result<PendingWithdrawal, DecodeError>)
    requires |w.amount| == 32
    ensures r == PendingOf(w, size)
  {
    var to := DecodeDsAddress(w.extraData, size);
    if to.Err? {
      return Err(to.error);
    }
    var buf := new byte[16](_ => 0);
    forall i | 0 <= i < 16 {
      buf[i] := w.amount[16 + i];
    }
    assert buf[..] == w.amount[16..32];
    var amount := (BeValue(buf[..]) / Gwei) % U64;
    return Ok(PendingWithdrawal(w.from, External(to.value), amount, U64 - 1));
  }

  /** A request built by `new` converts back into a pending withdrawal to
      the same key, for the same amount, at block height `u64::MAX`. */
  lemma RequestRoundTrip(id: seq<byte>, from: seq<byte>, to: PublicKey, amount: nat,
                         extraData: seq<byte>, size: nat)
    requires amount < U64 && size < U64 && WellFormedKey(to, size)
    ensures var w := WithdrawalRequest(id, from, AmountBytes(amount), DsEncoding(to, size) + extraData);
            |w.amount| == 32 &&
            PendingOf(w, size) == Ok(PendingWithdrawal(from, External(to), amount, U64 - 1))
  {
    AmountBytesLayout(amount);
    AmountRoundTrip(amount);
    DecodeEncoded(to, size, extraData);
  }

  // ---------------------------------------------------------------------
  // EVM addresses as hex
  // ---------------------------------------------------------------------

  datatype EvmError = WrongLength(got: nat) | InvalidHex

  function EvmErrorMessage(e: EvmError): string {
    match e
    case WrongLength(got) => "expected 40 hex chars, got " + NatToString(got)
    case InvalidHex => "invalid hex string for 20 byte address"
  }

  /** `serde_evm::serialize`: `0x` and two lower-case digits per byte. */
  method SerializeEvm(addr: seq<byte>) returns (s: string)
    requires |addr| == EvmAddressLen
    ensures s == "0x" + HexOf(addr)
    ensures |s| == 42
  {
    s := ToHexPrefixed(addr);
  }

  /** At most one `0x` or `0X` is stripped. */
  function StripHexPrefix(s: string): (r: string)
    ensures r == s || (|s| >= 2 && s[0] == '0' && (s[1] == 'x' || s[1] == 'X') && r == s[2..])
  {
    if |s| >= 2 && s[0] == '0' && (s[1] == 'x' || s[1] == 'X') then s[2..] else s
  }

  /** The number of bytes a character takes in UTF-8. */
  function CharUtf8Len(c: char): nat {
    if c as int < 0x80 then 1 else if c as int < 0x800 then 2 else if c as int < 0x10000 then 3 else 4
  }

  /** `str::len`: the length of the text in UTF-8 bytes, which is its length
      in characters exactly when every character is ASCII. */
  function Utf8Len(s: string): (n: nat)
    ensures n >= |s|
    ensures n == |s| <==> forall k :: 0 <= k < |s| ==> s[k] as int < 0x80
    decreases |s|
  {
    if s == [] then 0
    else
      var n := CharUtf8Len(s[0]) + Utf8Len(s[1..]);
      assert forall k :: 1 <= k < |s| ==> s[k] == s[1..][k - 1];
      n
  }

  /** What `serde_evm::deserialize` accepts: after trimming and stripping
      one prefix, exactly 40 bytes of text, read as 20 pairs of hexadecimal
      digits. Forty bytes that are not forty ASCII characters cannot be
      read as pairs. */
  function DeserializeEvmSpec(s: string): (r: Result<seq<byte>, EvmError>)
    ensures r.Ok? ==> |r.value| == EvmAddressLen
    ensures r == Err(WrongLength(Utf8Len(StripHexPrefix(Trim(s))))) <==> Utf8Len(StripHexPrefix(Trim(s))) != 40
    ensures r.Ok? ==> |StripHexPrefix(Trim(s))| == 40 && ParseHex(StripHexPrefix(Trim(s))) == Some(r.value)
  {
    var t := StripHexPrefix(Trim(s));
    if Utf8Len(t) != 40 then Err(WrongLength(Utf8Len(t)))
    else if |t| != 40 then Err(InvalidHex)
    else
      var p := ParseHex(t);
      if p.None? then Err(InvalidHex) else Ok(p.value)
  }

  lemma {:induction false} Utf8LenAppend(a: string, b: string)
    ensures Utf8Len(a + b) == Utf8Len(a) + Utf8Len(b)
    decreases |a|
  {
    if a == [] {
      assert a + b == b;
    } else {
      Utf8LenAppend(a[1..], b);
      assert (a + b)[1..] == a[1..] + b;
    }
  }

  lemma {:induction false} Utf8LenRepeat(n: nat, c: char)
    ensures Utf8Len(seq(n, _ => c)) == n * CharUtf8Len(c)
  {
    if n > 0 {
      assert seq(n, _ => c)[1..] == seq(n - 1, _ => c);
      Utf8LenRepeat(n - 1, c);
    }
  }

  /** Twenty `é` are forty bytes, so they pass the length check and fail
      as hexadecimal. */
  lemma TwentyAcutesAreInvalidHex()
    ensures DeserializeEvmSpec(seq(20, _ => 'é')) == Err(InvalidHex)
  {
    var e := seq(20, _ => 'é');
    TrimUntouched(e);
    Utf8LenRepeat(20, 'é');
  }

  /** Thirty-nine digits and an `é` are forty-one bytes, and the length
      error says so. */
  lemma DigitsAndAcuteCountBytes()
    ensures DeserializeEvmSpec(seq(39, _ => 'a') + "é") == Err(WrongLength(41))
  {
    var a := seq(39, _ => 'a') + "é";
    assert a[0] == 'a' && a[|a| - 1] == 'é';
    TrimUntouched(a);
    Utf8LenRepeat(39, 'a');
    Utf8LenAppend(seq(39, _ => 'a'), "é");
    assert Utf8Len("é") == 2 by {
      assert "é"[1..] == [];
    }
  }

  /** Pairs that all parse give `ParseHex` its bytes. */
  lemma {:induction false} ParseHexPairs(t: string, bs: seq<byte>)
    requires |t| == 2 * |bs|
    requires forall j :: 0 <= j < |bs| ==> ParseHexByte(t[2 * j], t[2 * j + 1]) == Some(bs[j])
    ensures ParseHex(t) == Some(bs)
    decreases |bs|
  {
    if bs != [] {
      var n := |bs|;
      var init := bs[..n - 1];
      forall j | 0 <= j < n - 1
        ensures ParseHexByte(t[..|t| - 2][2 * j], t[..|t| - 2][2 * j + 1]) == Some(init[j])
      {
        assert t[..|t| - 2][2 * j] == t[2 * j] && t[..|t| - 2][2 * j + 1] == t[2 * j + 1];
      }
      ParseHexPairs(t[..|t| - 2], init);
      assert ParseHexByte(t[|t| - 2], t[|t| - 1]) == Some(bs[n - 1]);
      assert init + [bs[n - 1]] == bs;
    }
  }

  /** One pair that does not parse makes `ParseHex` fail. */
  lemma {:induction false} ParseHexBadPair(t: string, j: nat)
    requires |t| % 2 == 0 && 2 * j + 1 < |t|
    requires ParseHexByte(t[2 * j], t[2 * j + 1]).None?
    ensures ParseHex(t).None?
    decreases |t|
  {
    if 2 * j + 2 < |t| {
      var u := t[..|t| - 2];
      assert u[2 * j] == t[2 * j] && u[2 * j + 1] == t[2 * j + 1];
      ParseHexBadPair(u, j);
    }
  }

  /** `visit_str`: trim, strip one prefix, check the length, then parse the
      pairs one by one into a 20-byte buffer, failing at the first bad pair. */
  method DeserializeEvm(s: string) returns (r: Result<seq<byte>, EvmError>)
    ensures r == DeserializeEvmSpec(s)
  {
    var t := Trim(s);
    t := StripHexPrefix(t);
    if Utf8Len(t) != 40 {
      return Err(WrongLength(Utf8Len(t)));
    }
    if |t| != 40 {
      // a multi-byte character: the pair holding it is not two hex digits
      return Err(InvalidHex);
    }
    var addr := new byte[20](_ => 0);
    var i := 0;
    while i < 20
      invariant 0 <= i <= 20
      invariant forall j :: 0 <= j < i ==> ParseHexByte(t[2 * j], t[2 * j + 1]) == Some(addr[j])
    {
      var b := ParseHexByte(t[2 * i], t[2 * i + 1]);
      if b.None? {
        ParseHexBadPair(t, i);
        return Err(InvalidHex);
      }
      addr[i] := b.value;
      i := i + 1;
    }
    ParseHexPairs(t, addr[..]);
    return Ok(addr[..]);
  }

  /** A string whose ends are not whitespace is its own trim. */
  lemma TrimUntouched(s: string)
    requires s != [] && !IsWhitespace(s[0]) && !IsWhitespace(s[|s| - 1])
    ensures Trim(s) == s
  {
  }

  /** Serializing an address and deserializing the text gives the address
      back. */
  lemma EvmRoundTrip(addr: seq<byte>)
    requires |addr| == EvmAddressLen
    ensures DeserializeEvmSpec("0x" + HexOf(addr)) == Ok(addr)
  {
    var h := HexOf(addr);
    var s := "0x" + h;
    HexOfAt(addr);
    assert h[39] == HexDigit(addr[19] as int % 16);
    assert s[0] == '0' && s[1] == 'x' && s[|s| - 1] == h[39];
    TrimUntouched(s);
    assert s[2..] == h;
    ParseHexOf(addr);
  }
}

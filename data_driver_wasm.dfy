/** The host side of the buffer protocol the CLI uses to drive a compiled
    data-driver module: a linear memory of 64 KiB pages that only grows,
    bounds-checked writes of the inputs, fixed output regions, and outputs
    read back as a 4-byte little-endian length followed by the payload.
    The module's exports are opaque: a call is described by an
    `ExportCall` that says whether the export exists, whether it traps,
    the status it returns, the pages its own `memory.grow` asks for and
    the bytes it writes. */
module DataDriverWasm {
  import opened Common
  import opened Hex

  const PageSize: nat := 65536

  // ---------------------------------------------------------------------
  // errors
  // ---------------------------------------------------------------------

  datatype WasmError =
    | GrowFailed                                   // wasmtime refused to grow the memory
    | WriteOutOfBounds(offset: nat, len: nat)
    | BufferOutOfBounds
    | OutputExceedsMemory
    | ExportNotFound(entry: string)
    | Trap(entry: string)                         // wasmtime reported a trap
    | CallFailed(entry: string, code: int, detail: string)
    | NotUtf8

  /** The message the CLI shows for an error. */
  function Message(e: WasmError): string {
    match e
    case GrowFailed => "WASM memory grow failed"
    case WriteOutOfBounds(offset, len) =>
      "WASM write out of bounds (offset=" + NatToString(offset) + ", len=" + NatToString(len) + ")"
    case BufferOutOfBounds => "WASM output buffer out of bounds"
    case OutputExceedsMemory => "WASM output exceeds memory bounds"
    case ExportNotFound(entry) => "WASM export '" + entry + "' not found"
    case Trap(entry) => "WASM trap in " + entry
    case CallFailed(entry, code, detail) => entry + " failed with code " + IntToString(code) + ": " + detail
    case NotUtf8 => "schema output is not valid UTF-8"
  }

  /** One call of a module export: whether the export exists, whether the
      call traps, the status it returns, the pages the module's own
      `memory.grow` asks for during the call, and the bytes it writes. */
  datatype ExportCall = ExportCall(present: bool, trap: bool, status: int, grow: nat, writes: map<nat, byte>)

  // ---------------------------------------------------------------------
  // the protocol on values
  // ---------------------------------------------------------------------

  /** The memory's bytes and its size in pages. */
  datatype MemState = MemState(data: seq<byte>, pages: nat)

  /** `align_up`. */
  function AlignUp(value: nat, align: nat): nat
    requires align > 0
  {
    ((value + align - 1) / align) * align
  }

  lemma MulMono(a: int, b: int, c: int)
    requires a <= b && c >= 0
    ensures a * c <= b * c
  {
  }

  lemma MulSucc(k: int, c: int)
    ensures (k + 1) * c == k * c + c
  {
  }

  /** Euclidean division has one quotient and remainder. */
  lemma DivUnique(x: int, a: int, q: int, r: int)
    requires a > 0 && x == q * a + r && 0 <= r < a
    ensures x / a == q && x % a == r
  {
    var d := x / a - q;
    assert x == (x / a) * a + x % a;
    assert d * a == (x / a) * a - q * a;
    assert d * a == r - x % a;
    if d >= 1 {
      MulMono(1, d, a);
    } else if d <= -1 {
      MulMono(1, -d, a);
    }
  }

  /** `align_up(v, a)` is the least multiple of `a` that is at least `v`. */
  lemma AlignUpLeast(value: nat, align: nat)
    requires align > 0
    ensures AlignUp(value, align) % align == 0
    ensures value <= AlignUp(value, align) < value + align
    ensures forall m: nat :: m % align == 0 && value <= m ==> AlignUp(value, align) <= m
  {
    AlignUpBounds(value, align);
    forall m: nat | m % align == 0 && value <= m ensures AlignUp(value, align) <= m {
      AlignUpMinimal(value, align, m);
    }
  }

  lemma AlignUpBounds(value: nat, align: nat)
    requires align > 0
    ensures AlignUp(value, align) % align == 0
    ensures value <= AlignUp(value, align) < value + align
  {
    var x := value + align - 1;
    var q := x / align;
    var p := q * align;
    assert x == p + x % align && 0 <= x % align < align;
    DivUnique(p, align, q, 0);
  }

  lemma AlignUpMinimal(value: nat, align: nat, m: nat)
    requires align > 0 && m % align == 0 && value <= m
    ensures AlignUp(value, align) <= m
  {
    var x := value + align - 1;
    var q := x / align;
    var k := m / align;
    assert m == k * align;
    assert x == q * align + x % align;
    if k < q {
      MulSucc(k, align);
      MulMono(k + 1, q, align);
    }
  }

  /** Pages needed to hold `required` bytes. */
  function RequiredPages(required: nat): nat {
    (required + 65535) / 65536
  }

  /** `ensure_memory_capacity`. */
  function EnsureSpec(s: MemState, maxPages: nat, required: nat): Result<MemState, WasmError> {
    var want := RequiredPages(required);
    if s.pages < want then
      if want <= maxPages then Ok(MemState(s.data + Zeros((want - s.pages) * PageSize), want))
      else Err(GrowFailed)
    else Ok(s)
  }

  /** After `ensure_memory_capacity` succeeds the memory holds the required
      bytes; when it was short it grew by exactly the shortfall, with the
      old bytes kept and new pages zeroed; otherwise nothing changed; it
      never shrinks, and it fails only when growing is refused, leaving the
      memory as it was. */
  lemma EnsureFacts(s: MemState, maxPages: nat, required: nat)
    requires |s.data| == s.pages * PageSize
    ensures EnsureSpec(s, maxPages, required).Ok? ==>
              var t := EnsureSpec(s, maxPages, required).value;
              t.pages * PageSize >= required && |t.data| == t.pages * PageSize && t.pages >= s.pages &&
              t.data[..|s.data|] == s.data && forall i :: |s.data| <= i < |t.data| ==> t.data[i] == 0
    ensures s.pages < RequiredPages(required) && EnsureSpec(s, maxPages, required).Ok? ==>
              EnsureSpec(s, maxPages, required).value.pages == s.pages + (RequiredPages(required) - s.pages)
    ensures s.pages >= RequiredPages(required) ==> EnsureSpec(s, maxPages, required) == Ok(s)
    ensures EnsureSpec(s, maxPages, required).Err? <==> s.pages < RequiredPages(required) && RequiredPages(required) > maxPages
  {
    var want := RequiredPages(required);
    assert want * 65536 >= required;
    if s.pages < want && want <= maxPages {
      var t := EnsureSpec(s, maxPages, required).value;
      assert t.data[..|s.data|] == s.data;
      assert (want - s.pages) * PageSize + s.pages * PageSize == want * PageSize;
    }
  }

  /** `write_bytes`. */
  function WriteSpec(s: MemState, offset: nat, bytes: seq<byte>): Result<MemState, WasmError> {
    if offset + |bytes| > |s.data| then Err(WriteOutOfBounds(offset, |bytes|))
    else Ok(MemState(s.data[..offset] + bytes + s.data[offset + |bytes|..], s.pages))
  }

  /** `write_bytes` with its outcome and the memory after it. */
  function WriteStep(s: MemState, offset: nat, bytes: seq<byte>): (Result<(), WasmError>, MemState) {
    var w := WriteSpec(s, offset, bytes);
    if w.Ok? then (Ok(()), w.value) else (Err(w.error), s)
  }

  /** A write in bounds changes exactly the written range, which then holds
      the data; a write out of bounds fails and changes nothing. */
  lemma WriteFacts(s: MemState, offset: nat, bytes: seq<byte>)
    ensures WriteSpec(s, offset, bytes).Err? <==> offset + |bytes| > |s.data|
    ensures WriteSpec(s, offset, bytes).Ok? ==>
              var t := WriteSpec(s, offset, bytes).value;
              |t.data| == |s.data| && t.pages == s.pages &&
              t.data[offset..offset + |bytes|] == bytes &&
              forall i :: 0 <= i < |s.data| && !(offset <= i < offset + |bytes|) ==> t.data[i] == s.data[i]
  {
    if offset + |bytes| <= |s.data| {
      var t := WriteSpec(s, offset, bytes).value;
      assert t.data[offset..offset + |bytes|] == bytes;
    }
  }

  /** A little-endian `u32`. */
  function LeU32(b0: byte, b1: byte, b2: byte, b3: byte): nat {
    b0 as nat + 256 * b1 as nat + 65536 * b2 as nat + 16777216 * b3 as nat
  }

  /** `read_prefixed_bytes`. */
  function ReadPrefixedSpec(data: seq<byte>, offset: nat): (r: Result<seq<byte>, WasmError>)
    ensures r.Ok? ==> offset + 4 <= |data| &&
                      |r.value| == LeU32(data[offset], data[offset + 1], data[offset + 2], data[offset + 3])
  {
    if offset + 4 > |data| then Err(BufferOutOfBounds)
    else
      var len := LeU32(data[offset], data[offset + 1], data[offset + 2], data[offset + 3]);
      if offset + 4 + len > |data| then Err(OutputExceedsMemory)
      else Ok(data[offset + 4..offset + 4 + len])
  }

  /** A buffer laid out as the little-endian length of `payload` followed
      by `payload` reads back as exactly `payload`, whatever follows it. */
  lemma ReadPrefixedOfLayout(before: seq<byte>, b0: byte, b1: byte, b2: byte, b3: byte, payload: seq<byte>,
                             after: seq<byte>)
    requires |payload| == LeU32(b0, b1, b2, b3)
    ensures ReadPrefixedSpec(before + [b0, b1, b2, b3] + payload + after, |before|) == Ok(payload)
  {
    var data := before + [b0, b1, b2, b3] + payload + after;
    assert data[|before|..|before| + 4] == [b0, b1, b2, b3];
    assert data[|before| + 4..|before| + 4 + |payload|] == payload;
  }

  /** The module's own `memory.grow` by `delta` pages: zeroed pages are
      appended up to the maximum; beyond it the instruction fails inside
      the module and the memory is kept. */
  function ExportGrowth(s: MemState, maxPages: nat, delta: nat): MemState {
    if s.pages + delta <= maxPages then MemState(s.data + Zeros(delta * PageSize), s.pages + delta) else s
  }

  /** The bytes after an export's stores: each store inside the memory
      lands, every other byte stays. */
  function ApplyWrites(data: seq<byte>, writes: map<nat, byte>): (r: seq<byte>)
    ensures |r| == |data|
  {
    seq(|data|, i requires 0 <= i < |data| => if i in writes then writes[i] else data[i])
  }

  /** Calling an export: missing, trapping, or returning its status; the
      module may grow its memory and then stores into it, and the host
      sees the memory as the call leaves it. */
  function CallSpec(s: MemState, maxPages: nat, entry: string, call: ExportCall): (Result<int, WasmError>, MemState) {
    if !call.present then (Err(ExportNotFound(entry)), s)
    else
      var g := ExportGrowth(s, maxPages, call.grow);
      var t := MemState(ApplyWrites(g.data, call.writes), g.pages);
      if call.trap then (Err(Trap(entry)), t) else (Ok(call.status), t)
  }

  /** A missing export changes nothing. An export that runs, trapping or
      not, leaves a well-formed memory that never shrinks: it grows by the
      pages the module asked for when they fit under the maximum and not at
      all otherwise, each stored byte inside the memory holds its value,
      every other old byte is kept and every other new byte is zero. */
  lemma CallFacts(s: MemState, maxPages: nat, entry: string, call: ExportCall)
    requires |s.data| == s.pages * PageSize && s.pages <= maxPages
    ensures !call.present ==> CallSpec(s, maxPages, entry, call).1 == s
    ensures call.present ==>
              var t := CallSpec(s, maxPages, entry, call).1;
              |t.data| == t.pages * PageSize && t.pages <= maxPages &&
              t.pages == (if s.pages + call.grow <= maxPages then s.pages + call.grow else s.pages) &&
              forall i :: 0 <= i < |t.data| ==>
                t.data[i] == (if i in call.writes then call.writes[i] else if i < |s.data| then s.data[i] else 0)
  {
    if call.present {
      var g := ExportGrowth(s, maxPages, call.grow);
      if s.pages + call.grow <= maxPages {
        assert |g.data| == g.pages * PageSize;
      }
      assert forall i :: 0 <= i < |g.data| ==> g.data[i] == if i < |s.data| then s.data[i] else 0;
    }
  }

  /** A length prefix that reaches past the memory as it was before the
      call is read from the memory the export grew: with one page, an
      export that grows by one page and stores the length 65536 at offset
      0 has its output read, where the same stores without the growth give
      `OutputExceedsMemory`. */
  lemma OutputInGrownMemory(s: MemState, lastError: ExportCall, decode: seq<byte> -> Option<string>)
    requires s.pages == 1 && |s.data| == PageSize
    ensures var call := ExportCall(true, false, 0, 1, map[0 := 0, 1 := 0, 2 := 1, 3 := 0]);
            ReadPrefixedSpec(ApplyWrites(s.data, call.writes), 0) == Err(OutputExceedsMemory) &&
            InvokeSpec(s, 2, "encode_input_fn", call, lastError, decode, 0).0.Ok?
  {
    var call := ExportCall(true, false, 0, 1, map[0 := 0, 1 := 0, 2 := 1, 3 := 0]);
    var before := ApplyWrites(s.data, call.writes);
    assert before[0] == 0 && before[1] == 0 && before[2] == 1 && before[3] == 0;
    var t := CallSpec(s, 2, "encode_input_fn", call).1;
    assert |t.data| == 2 * PageSize;
    assert t.data[0] == 0 && t.data[1] == 0 && t.data[2] == 1 && t.data[3] == 0;
  }

  const ErrorOffset: nat := 16 * 1024
  const ErrorCapacity: nat := 8 * 1024

  /** `read_last_error`: every failure along the way gives no text. */
  function LastErrorSpec(s: MemState, maxPages: nat, call: ExportCall, decode: seq<byte> -> Option<string>)
    : (Option<string>, MemState)
  {
    if !call.present then (None, s)
    else
      var e := EnsureSpec(s, maxPages, ErrorOffset + ErrorCapacity);
      if e.Err? then (None, s)
      else
        var (c, t) := CallSpec(e.value, maxPages, "get_last_error", call);
        if c.Err? || c.value != 0 then (None, t)
        else
          var bytes := ReadPrefixedSpec(t.data, ErrorOffset);
          if bytes.Err? then (None, t) else (decode(bytes.value), t)
  }

  /** The error of an export that returned a non-zero status. */
  function FailureSpec(s: MemState, maxPages: nat, entry: string, code: int, lastError: ExportCall,
                       decode: seq<byte> -> Option<string>): (WasmError, MemState)
  {
    var (detail, t) := LastErrorSpec(s, maxPages, lastError, decode);
    (CallFailed(entry, code, if detail.Some? then detail.value else "unknown error"), t)
  }

  /** Calling an export that writes a length-prefixed output at
      `outOffset`: its status decides between the module's error and the
      output. */
  function InvokeSpec(s: MemState, maxPages: nat, entry: string, call: ExportCall, lastError: ExportCall,
                      decode: seq<byte> -> Option<string>, outOffset: nat): (Result<seq<byte>, WasmError>, MemState)
  {
    var (c, t) := CallSpec(s, maxPages, entry, call);
    if c.Err? then (Err(c.error), t)
    else if c.value != 0 then
      var (err, u) := FailureSpec(t, maxPages, entry, c.value, lastError, decode);
      (Err(err), u)
    else (ReadPrefixedSpec(t.data, outOffset), t)
  }

  const SchemaOffset: nat := 64 * 1024
  const SchemaCapacity: nat := 256 * 1024

  /** `get_schema_json`. */
  function GetSchemaSpec(s: MemState, maxPages: nat, call: ExportCall, lastError: ExportCall,
                         decode: seq<byte> -> Option<string>): (Result<string, WasmError>, MemState)
  {
    var e := EnsureSpec(s, maxPages, SchemaOffset + SchemaCapacity);
    if e.Err? then (Err(e.error), s)
    else
      var (bytes, t) := InvokeSpec(e.value, maxPages, "get_schema", call, lastError, decode, SchemaOffset);
      if bytes.Err? then (Err(bytes.error), t)
      else if decode(bytes.value).None? then (Err(NotUtf8), t)
      else (Ok(decode(bytes.value).value), t)
  }

  const NameOffset: nat := 1024

  /** Where `encode_input` puts the JSON. */
  function JsonOffset(name: seq<byte>): nat {
    AlignUp(NameOffset + |name| + 16, 8)
  }

  /** Where `encode_input` asks for the output. */
  function OutOffset(name: seq<byte>, json: seq<byte>): nat {
    AlignUp(JsonOffset(name) + |json| + 16, 8)
  }

  /** The output capacity `encode_input` offers. */
  function OutCapacity(json: seq<byte>): nat {
    if 2 * |json| > 4096 then 2 * |json| else 4096
  }

  /** The first half of `encode_input`: grow the memory to the end of the
      output region, then write the name and the JSON. */
  function PrepareSpec(s: MemState, maxPages: nat, name: seq<byte>, json: seq<byte>): (Result<(), WasmError>, MemState) {
    var e := EnsureSpec(s, maxPages, OutOffset(name, json) + OutCapacity(json));
    if e.Err? then (Err(e.error), s)
    else
      var (w1, t1) := WriteStep(e.value, NameOffset, name);
      if w1.Err? then (w1, t1)
      else WriteStep(t1, JsonOffset(name), json)
  }

  /** `encode_input`. */
  function EncodeInputSpec(s: MemState, maxPages: nat, name: seq<byte>, json: seq<byte>, call: ExportCall,
                           lastError: ExportCall, decode: seq<byte> -> Option<string>)
    : (Result<seq<byte>, WasmError>, MemState)
  {
    var (p, t) := PrepareSpec(s, maxPages, name, json);
    if p.Err? then (Err(p.error), t)
    else InvokeSpec(t, maxPages, "encode_input_fn", call, lastError, decode, OutOffset(name, json))
  }

  // ---------------------------------------------------------------------
  // properties of the protocol
  // ---------------------------------------------------------------------

  /** The three regions of `encode_input` lie in increasing order without
      overlap, each input followed by at least 16 spare bytes, and the JSON
      and output regions are 8-byte aligned. */
  lemma EncodeLayout(name: seq<byte>, json: seq<byte>)
    ensures NameOffset + |name| + 16 <= JsonOffset(name)
    ensures JsonOffset(name) + |json| + 16 <= OutOffset(name, json)
    ensures JsonOffset(name) % 8 == 0 && OutOffset(name, json) % 8 == 0
    ensures OutCapacity(json) >= 4096 && OutCapacity(json) >= 2 * |json|
  {
    AlignUpLeast(NameOffset + |name| + 16, 8);
    AlignUpLeast(JsonOffset(name) + |json| + 16, 8);
  }

  /** `encode_input` grows the memory to the end of the output region
      before writing, so neither input write can be out of bounds: it fails
      only for a refused growth, a missing or trapping export, a non-zero
      status, or a bad output buffer. */
  lemma EncodeWritesInBounds(s: MemState, maxPages: nat, name: seq<byte>, json: seq<byte>, call: ExportCall,
                             lastError: ExportCall, decode: seq<byte> -> Option<string>)
    requires |s.data| == s.pages * PageSize
    ensures var (r, _) := EncodeInputSpec(s, maxPages, name, json, call, lastError, decode);
            r.Err? ==> !r.error.WriteOutOfBounds?
  {
    EncodeLayout(name, json);
    EnsureFacts(s, maxPages, OutOffset(name, json) + OutCapacity(json));
    var e := EnsureSpec(s, maxPages, OutOffset(name, json) + OutCapacity(json));
    if e.Ok? {
      WriteFacts(e.value, NameOffset, name);
    }
  }

  /** When the export that encodes is reached, the name and the JSON sit in
      memory at their offsets, so the module reads the caller's inputs. */
  lemma EncodeInputsWritten(s: MemState, maxPages: nat, name: seq<byte>, json: seq<byte>)
    requires |s.data| == s.pages * PageSize
    requires EnsureSpec(s, maxPages, OutOffset(name, json) + OutCapacity(json)).Ok?
    ensures var e := EnsureSpec(s, maxPages, OutOffset(name, json) + OutCapacity(json)).value;
            WriteSpec(e, NameOffset, name).Ok? &&
            WriteSpec(WriteSpec(e, NameOffset, name).value, JsonOffset(name), json).Ok? &&
            var t := WriteSpec(WriteSpec(e, NameOffset, name).value, JsonOffset(name), json).value;
            t.data[NameOffset..NameOffset + |name|] == name &&
            t.data[JsonOffset(name)..JsonOffset(name) + |json|] == json
  {
    EncodeLayout(name, json);
    EnsureFacts(s, maxPages, OutOffset(name, json) + OutCapacity(json));
    var e := EnsureSpec(s, maxPages, OutOffset(name, json) + OutCapacity(json)).value;
    WriteFacts(e, NameOffset, name);
    var m := WriteSpec(e, NameOffset, name).value;
    WriteFacts(m, JsonOffset(name), json);
    var t := WriteSpec(m, JsonOffset(name), json).value;
    assert forall i :: NameOffset <= i < NameOffset + |name| ==> t.data[i] == m.data[i];
    assert t.data[NameOffset..NameOffset + |name|] == m.data[NameOffset..NameOffset + |name|];
  }

  /** `get_schema_json` asks for 320 KiB of memory, that is at least five
      pages, before calling the export. */
  lemma SchemaNeedsFivePages(s: MemState, maxPages: nat)
    requires |s.data| == s.pages * PageSize
    ensures RequiredPages(SchemaOffset + SchemaCapacity) == 5
    ensures EnsureSpec(s, maxPages, SchemaOffset + SchemaCapacity).Ok? ==>
              EnsureSpec(s, maxPages, SchemaOffset + SchemaCapacity).value.pages >= 5
  {
  }

  /** A non-zero status is reported as `<entry> failed with code C: D`,
      where D is the module's last-error text or `unknown error` when that
      text cannot be had. */
  lemma FailureMessage(s: MemState, maxPages: nat, entry: string, code: int, lastError: ExportCall,
                       decode: seq<byte> -> Option<string>)
    ensures var (detail, _) := LastErrorSpec(s, maxPages, lastError, decode);
            Message(FailureSpec(s, maxPages, entry, code, lastError, decode).0) ==
            entry + " failed with code " + IntToString(code) + ": " + (if detail.Some? then detail.value else "unknown error")
    ensures !lastError.present ==>
              Message(FailureSpec(s, maxPages, entry, code, lastError, decode).0) ==
              entry + " failed with code " + IntToString(code) + ": unknown error"
  {
  }

  // ---------------------------------------------------------------------
  // the host object
  // ---------------------------------------------------------------------

  /** `DataDriverWasm`: the module's linear memory, `pages` pages of 64 KiB
      that wasmtime will grow up to `maxPages`. */
  class DataDriverWasm {
    const maxPages: nat
    var pages: nat
    var mem: array<byte>
    /** The page counts requested from wasmtime's `grow`, in order. */
    ghost var growRequests: seq<nat>

    ghost predicate Valid()
      reads this
    {
      mem.Length == pages * PageSize && pages <= maxPages
    }

    function State(): MemState
      reads this, mem
    {
      MemState(mem[..], pages)
    }

    /** The memory of an instantiated module whose `init` has run. */
    constructor (initial: seq<byte>, initialPages: nat, maxPages: nat)
      requires |initial| == initialPages * PageSize && initialPages <= maxPages
      ensures Valid() && State() == MemState(initial, initialPages) && this.maxPages == maxPages
      ensures growRequests == []
    {
      this.maxPages := maxPages;
      pages := initialPages;
      mem := new byte[|initial|](i requires 0 <= i < |initial| => initial[i]);
      growRequests := [];
    }

    /** wasmtime's `Memory::grow`: `delta` more zeroed pages, or an error
        beyond the maximum. */
    method Grow(delta: nat) returns (ok: bool)
      requires Valid()
      modifies this
      ensures Valid() && growRequests == old(growRequests) + [delta]
      ensures ok <==> old(pages) + delta <= maxPages
      ensures ok ==> State() == MemState(old(mem[..]) + Zeros(delta * PageSize), old(pages) + delta) && fresh(mem)
      ensures !ok ==> State() == old(State()) && mem == old(mem)
    {
      growRequests := growRequests + [delta];
      if pages + delta > maxPages {
        return false;
      }
      Extend(delta);
      return true;
    }

    /** Replaces the memory by one `delta` pages longer, its old bytes
        kept and its new bytes zero. */
    method Extend(delta: nat)
      requires Valid() && pages + delta <= maxPages
      modifies this
      ensures Valid() && growRequests == old(growRequests) && fresh(mem)
      ensures State() == MemState(old(mem[..]) + Zeros(delta * PageSize), old(pages) + delta)
    {
      var before := mem[..];
      var n := (pages + delta) * PageSize;
      assert n == |before| + delta * PageSize;
      var grown := new byte[n](i requires 0 <= i < n => if i < |before| then before[i] else 0);
      assert grown[..] == before + Zeros(delta * PageSize);
      mem := grown;
      pages := pages + delta;
    }

    /** `ensure_memory_capacity`: grow by the shortfall, if any. */
    method EnsureMemoryCapacity(required: nat) returns (r: Result<(), WasmError>)
      requires Valid()
      modifies this
      ensures Valid()
      ensures r.Ok? <==> EnsureSpec(old(State()), maxPages, required).Ok?
      ensures r.Ok? ==> State() == EnsureSpec(old(State()), maxPages, required).value
      ensures r.Err? ==> r.error == GrowFailed && State() == old(State())
      ensures State() == old(State()) ==> mem == old(mem)
      ensures mem != old(mem) ==> fresh(mem)
      ensures growRequests == old(growRequests) +
                (if old(pages) < RequiredPages(required) then [RequiredPages(required) - old(pages)] else [])
    {
      var requiredPages := (required + 65535) / 65536;
      if pages < requiredPages {
        var ok := Grow(requiredPages - pages);
        if !ok {
          return Err(GrowFailed);
        }
      }
      return Ok(());
    }

    /** `write_bytes`: a bounds check, then a copy into the range. */
    method WriteBytes(offset: nat, data: seq<byte>) returns (r: Result<(), WasmError>)
      requires Valid()
      modifies mem
      ensures Valid()
      ensures (r, State()) == WriteStep(old(State()), offset, data)
    {
      var end := offset + |data|;
      if end > mem.Length {
        return Err(WriteOutOfBounds(offset, |data|));
      }
      forall i | 0 <= i < |data| {
        mem[offset + i] := data[i];
      }
      assert mem[..] == old(mem[..offset]) + data + old(mem[end..]);
      return Ok(());
    }

    /** `read_prefixed_bytes`. */
    method ReadPrefixedBytes(offset: nat) returns (r: Result<seq<byte>, WasmError>)
      ensures r == ReadPrefixedSpec(mem[..], offset)
    {
      if offset + 4 > mem.Length {
        return Err(BufferOutOfBounds);
      }
      var len := LeU32(mem[offset], mem[offset + 1], mem[offset + 2], mem[offset + 3]);
      var start := offset + 4;
      var end := start + len;
      if end > mem.Length {
        return Err(OutputExceedsMemory);
      }
      return Ok(mem[start..end]);
    }

    /** Calling an export of the module, which may grow the memory before
        it stores into it. */
    method CallExport(entry: string, call: ExportCall) returns (r: Result<int, WasmError>)
      requires Valid()
      modifies this, mem
      ensures Valid() && growRequests == old(growRequests)
      ensures (r, State()) == CallSpec(old(State()), maxPages, entry, call)
      ensures mem == old(mem) || fresh(mem)
    {
      if !call.present {
        return Err(ExportNotFound(entry));
      }
      if call.grow > 0 && pages + call.grow <= maxPages {
        Extend(call.grow);
      }
      assert State() == ExportGrowth(old(State()), maxPages, call.grow);
      ghost var grown := mem[..];
      forall i | 0 <= i < mem.Length && i in call.writes {
        mem[i] := call.writes[i];
      }
      assert mem[..] == ApplyWrites(grown, call.writes);
      if call.trap {
        return Err(Trap(entry));
      }
      return Ok(call.status);
    }

    /** `read_last_error`. */
    method ReadLastError(call: ExportCall, decode: seq<byte> -> Option<string>) returns (r: Option<string>)
      requires Valid()
      modifies this, mem
      ensures Valid()
      ensures (r, State()) == LastErrorSpec(old(State()), maxPages, call, decode)
    {
      if !call.present {
        return None;
      }
      var e := EnsureMemoryCapacity(ErrorOffset + ErrorCapacity);
      if e.Err? {
        return None;
      }
      var c := CallExport("get_last_error", call);
      if c.Err? || c.value != 0 {
        return None;
      }
      var bytes := ReadPrefixedBytes(ErrorOffset);
      if bytes.Err? {
        return None;
      }
      return decode(bytes.value);
    }

    /** Calling an export, reporting a non-zero status with the module's
        last error, and reading its output. */
    method Invoke(entry: string, call: ExportCall, lastError: ExportCall, decode: seq<byte> -> Option<string>,
                  outOffset: nat) returns (r: Result<seq<byte>, WasmError>)
      requires Valid()
      modifies this, mem
      ensures Valid()
      ensures (r, State()) == InvokeSpec(old(State()), maxPages, entry, call, lastError, decode, outOffset)
    {
      var c := CallExport(entry, call);
      if c.Err? {
        return Err(c.error);
      }
      if c.value != 0 {
        var detail := ReadLastError(lastError, decode);
        return Err(CallFailed(entry, c.value, if detail.Some? then detail.value else "unknown error"));
      }
      r := ReadPrefixedBytes(outOffset);
    }

    /** `get_schema_json`. */
    method GetSchemaJson(call: ExportCall, lastError: ExportCall, decode: seq<byte> -> Option<string>)
      returns (r: Result<string, WasmError>)
      requires Valid()
      modifies this, mem
      ensures Valid()
      ensures (r, State()) == GetSchemaSpec(old(State()), maxPages, call, lastError, decode)
    {
      var e := EnsureMemoryCapacity(SchemaOffset + SchemaCapacity);
      if e.Err? {
        return Err(e.error);
      }
      var bytes := Invoke("get_schema", call, lastError, decode, SchemaOffset);
      if bytes.Err? {
        return Err(bytes.error);
      }
      var text := decode(bytes.value);
      if text.None? {
        return Err(NotUtf8);
      }
      return Ok(text.value);
    }

    /** The layout of `encode_input`, the growth to its end, and the two
        input writes. */
    method PrepareInputs(name: seq<byte>, json: seq<byte>) returns (r: Result<(), WasmError>)
      requires Valid()
      modifies this, mem
      ensures Valid()
      ensures (r, State()) == PrepareSpec(old(State()), maxPages, name, json)
      ensures mem == old(mem) || fresh(mem)
    {
      var fnOffset := NameOffset;
      var jsonOffset := JsonOffset(name);
      var outOffset := OutOffset(name, json);
      var outSize := OutCapacity(json);
      var e := EnsureMemoryCapacity(outOffset + outSize);
      if e.Err? {
        return Err(e.error);
      }
      r := WriteBytes(fnOffset, name);
      if r.Err? {
        return;
      }
      r := WriteBytes(jsonOffset, json);
    }

    /** `encode_input`. */
    method EncodeInput(name: seq<byte>, json: seq<byte>, call: ExportCall, lastError: ExportCall,
                       decode: seq<byte> -> Option<string>) returns (r: Result<seq<byte>, WasmError>)
      requires Valid()
      modifies this, mem
      ensures Valid()
      ensures (r, State()) == EncodeInputSpec(old(State()), maxPages, name, json, call, lastError, decode)
    {
      var p := PrepareInputs(name, json);
      if p.Err? {
        return Err(p.error);
      }
      r := Invoke("encode_input_fn", call, lastError, decode, OutOffset(name, json));
    }
  }
}

/** TCP options on the wire: printing, parsing, and that each undoes the other. */
module TcpOptions {
  import opened Prelude
  import opened Checksum

  const CAPACITY: int := 40

  datatype OptionError = Truncated | InvalidLength | DuplicateOption | InvalidMss | TooLong

  datatype SynOptions = SynOptions(
    mssPresent: bool, mss: int, scalePresent: bool, scale: int, sackPermitted: bool,
    stampPresent: bool, stampValue: int, stampEcho: int)

  const NONE: SynOptions := SynOptions(false, 0, false, 0, false, false, 0, 0)

  datatype Parsed = Ok(options: SynOptions) | Err(error: OptionError)

  datatype SackBlock = SackBlock(left: int, right: int)

  predicate U16(v: int) { 0 <= v < 0x1_0000 }

  predicate Wide(v: int) { 0 <= v < U32 }

  predicate Fits(o: SynOptions)
  {
    U16(o.mss) && 0 <= o.scale < 256 && Wide(o.stampValue) && Wide(o.stampEcho)
  }

  // ---------------------------------------------------------------------------------
  // Words.
  // ---------------------------------------------------------------------------------

  function Read16(s: bytes, at: nat): (r: int)
    requires at + 2 <= |s|
  {
    256 * s[at] + s[at + 1]
  }

  function Read32(s: bytes, at: nat): (r: int)
    requires at + 4 <= |s|
  {
    0x100_0000 * s[at] + 0x1_0000 * s[at + 1] + 0x100 * s[at + 2] + s[at + 3]
  }

  lemma Be16Reads(v: int)
    requires U16(v)
    ensures Read16(Be16(v), 0) == v
  {
  }

  lemma Be32Reads(v: int)
    requires Wide(v)
    ensures Read32(Be32(v), 0) == v
  {
    WordOf(v);
    WordOf(v / 0x1_0000);
    assert v / 0x100_0000 == v / 0x1_0000 / 0x100;
    assert v == 0x1_0000 * (v / 0x1_0000) + v % 0x1_0000;
    LowHalf(v / 0x1_0000, 0, v / 0x1_0000);
  }

  lemma ReadAt(s: bytes, a: bytes, b: bytes, c: bytes)
    requires s == a + b + c
    ensures |b| == 2 ==> Read16(s, |a|) == Read16(b, 0)
    ensures |b| == 4 ==> Read32(s, |a|) == Read32(b, 0)
  {
    assert forall i :: 0 <= i < |b| ==> s[|a| + i] == b[i];
    if |b| == 4 {
      assert s[|a| + 0] == b[0] && s[|a| + 1] == b[1] && s[|a| + 2] == b[2] && s[|a| + 3] == b[3];
    }
  }

  // ---------------------------------------------------------------------------------
  // Printing.
  // ---------------------------------------------------------------------------------

  function Padding(n: nat): (r: bytes)
    ensures (n + |r|) % 4 == 0 && |r| < 4 && forall i :: 0 <= i < |r| ==> r[i] == 0
  {
    if n % 4 == 0 then [] else if n % 4 == 1 then [0, 0, 0] else if n % 4 == 2 then [0, 0] else [0]
  }

  function MssBytes(o: SynOptions): (r: bytes)
  {
    if o.mssPresent then [2, 4] + Be16(o.mss) else []
  }

  function SackPermittedBytes(o: SynOptions): (r: bytes)
  {
    if o.sackPermitted then [4, 2] else []
  }

  function StampBytes(present: bool, value: int, echo: int): (r: bytes)
  {
    if present then [1, 1, 8, 10] + Be32(value) + Be32(echo) else []
  }

  function ScaleBytes(o: SynOptions): (r: bytes)
  {
    if o.scalePresent then [1, 3, 3, if o.scale < 14 then o.scale else 14] else []
  }

  function SynBody(o: SynOptions): (r: bytes)
  {
    MssBytes(o) + SackPermittedBytes(o) + StampBytes(o.stampPresent, o.stampValue, o.stampEcho) + ScaleBytes(o)
  }

  function SynBytes(o: SynOptions): (r: bytes)
    ensures |r| <= 24 && |r| % 4 == 0
  {
    SynBody(o) + Padding(|SynBody(o)|)
  }

  function BlockBytes(blocks: seq<SackBlock>): (r: bytes)
    ensures |r| == 8 * |blocks|
  {
    if blocks == [] then [] else Be32(blocks[0].left) + Be32(blocks[0].right) + BlockBytes(blocks[1..])
  }

  /** Three blocks fit beside a timestamp, four without one. */
  function Kept(stamped: bool, blocks: seq<SackBlock>): (r: seq<SackBlock>)
    ensures |r| <= 4 && (stamped ==> |r| <= 3)
  {
    var room := if stamped then 3 else 4;
    if |blocks| <= room then blocks else blocks[..room]
  }

  function SackBytes(blocks: seq<SackBlock>): (r: bytes)
  {
    if blocks == [] then [] else [5, 2 + 8 * |blocks|] + BlockBytes(blocks)
  }

  function AckBody(stamped: bool, value: int, echo: int, blocks: seq<SackBlock>): (r: bytes)
  {
    StampBytes(stamped, value, echo) + SackBytes(Kept(stamped, blocks))
  }

  function AckBytes(stamped: bool, value: int, echo: int, blocks: seq<SackBlock>): (r: bytes)
    ensures |r| <= CAPACITY && |r| % 4 == 0
  {
    var body := AckBody(stamped, value, echo, blocks);
    body + Padding(|body|)
  }

  /** A chain of AppendByte calls, stopping at the first that does not fit. */
  method AppendAll(options: bytes, values: bytes) returns (ok: bool, r: bytes)
    ensures ok <==> values == [] || |options| + |values| <= CAPACITY
    ensures ok ==> r == options + values
  {
    r := options;
    var i := 0;
    while i < |values|
      invariant 0 <= i <= |values| && r == options + values[..i] && (i == 0 || |options| + i <= CAPACITY)
    {
      if |r| >= CAPACITY {
        return false, r;
      }
      r := r + [values[i]];
      i := i + 1;
    }
    ok := true;
  }

  method AppendPadding(options: bytes) returns (ok: bool, r: bytes)
    requires |options| <= CAPACITY
    ensures ok && r == options + Padding(|options|)
  {
    r := options;
    while |r| % 4 != 0
      invariant |r| <= CAPACITY && r + Padding(|r|) == options + Padding(|options|)
      decreases CAPACITY - |r|
    {
      if |r| >= CAPACITY {
        return false, r;
      }
      r := r + [0];
    }
    ok := true;
  }

  /** The forty bytes always suffice. */
  method SerializeSynOptions(o: SynOptions) returns (ok: bool, options: bytes)
    ensures ok && options == SynBytes(o)
  {
    options := [];
    if o.mssPresent {
      ok, options := AppendAll(options, [2, 4] + Be16(o.mss));
      if !ok {
        return;
      }
    }
    assert options == MssBytes(o);
    if o.sackPermitted {
      ok, options := AppendAll(options, [4, 2]);
      if !ok {
        return;
      }
    }
    assert options == MssBytes(o) + SackPermittedBytes(o);
    if o.stampPresent {
      ok, options := AppendAll(options, [1, 1, 8, 10] + Be32(o.stampValue) + Be32(o.stampEcho));
      if !ok {
        return;
      }
    }
    assert options == MssBytes(o) + SackPermittedBytes(o) + StampBytes(o.stampPresent, o.stampValue, o.stampEcho);
    if o.scalePresent {
      ok, options := AppendAll(options, [1, 3, 3, if o.scale < 14 then o.scale else 14]);
      if !ok {
        return;
      }
    }
    assert options == SynBody(o);
    ok, options := AppendPadding(options);
  }

  method SerializeAckOptions(stamped: bool, value: int, echo: int, blocks: seq<SackBlock>) returns (ok: bool, options: bytes)
    ensures ok && options == AckBytes(stamped, value, echo, blocks)
  {
    hide Be32, Padding, BlockBytes;
    options := [];
    if stamped {
      ok, options := AppendAll(options, [1, 1, 8, 10] + Be32(value) + Be32(echo));
      if !ok {
        return;
      }
    }
    assert options == StampBytes(stamped, value, echo);
    hide StampBytes;
    var room := if stamped then 3 else 4;
    var count := if |blocks| < room then |blocks| else room;
    assert blocks[..count] == Kept(stamped, blocks);
    if count != 0 {
      ok, options := AppendAll(options, [5, 2 + count * 8]);
      if !ok {
        return;
      }
      ok, options := AppendBlocks(options, blocks[..count]);
      if !ok {
        return;
      }
    }
    assert options == AckBody(stamped, value, echo, blocks);
    ok, options := AppendPadding(options);
  }

  method AppendBlocks(start: bytes, blocks: seq<SackBlock>) returns (ok: bool, options: bytes)
    requires |start| + 8 * |blocks| <= CAPACITY
    ensures ok && options == start + BlockBytes(blocks)
  {
    options := start;
    var i := 0;
    while i < |blocks|
      invariant 0 <= i <= |blocks| && options == start + BlockBytes(blocks[..i])
    {
      ok, options := AppendAll(options, Be32(blocks[i].left));
      if !ok {
        return;
      }
      ok, options := AppendAll(options, Be32(blocks[i].right));
      if !ok {
        return;
      }
      BlockBytesAppend(blocks[..i], blocks[i]);
      assert blocks[..i + 1] == blocks[..i] + [blocks[i]];
      i := i + 1;
    }
    assert blocks[..i] == blocks;
    ok := true;
  }

  lemma {:induction false} BlockBytesAppend(blocks: seq<SackBlock>, b: SackBlock)
    ensures BlockBytes(blocks + [b]) == BlockBytes(blocks) + Be32(b.left) + Be32(b.right)
  {
    if blocks == [] {
      assert blocks + [b] == [b] && [b][1..] == [];
    } else {
      assert (blocks + [b])[1..] == blocks[1..] + [b];
      BlockBytesAppend(blocks[1..], b);
    }
  }

  // ---------------------------------------------------------------------------------
  // Parsing.
  // ---------------------------------------------------------------------------------

  /** One option of the given kind and length at the front of `rest`. */
  function Take(rest: bytes, acc: SynOptions): (r: Parsed)
    requires |rest| >= 2 && 2 <= rest[1] <= |rest|
  {
    var kind, length := rest[0], rest[1];
    if kind == 2 then
      if length != 4 then Err(InvalidLength)
      else if acc.mssPresent then Err(DuplicateOption)
      else if Read16(rest, 2) == 0 then Err(InvalidMss)
      else Ok(acc.(mssPresent := true, mss := Read16(rest, 2)))
    else if kind == 3 then
      if length != 3 then Err(InvalidLength)
      else if acc.scalePresent then Err(DuplicateOption)
      else Ok(acc.(scalePresent := true, scale := if rest[2] > 14 then 14 else rest[2]))
    else if kind == 4 then
      if length != 2 then Err(InvalidLength)
      else if acc.sackPermitted then Err(DuplicateOption)
      else Ok(acc.(sackPermitted := true))
    else if kind == 8 then
      if length != 10 then Err(InvalidLength)
      else if acc.stampPresent then Err(DuplicateOption)
      else Ok(acc.(stampPresent := true, stampValue := Read32(rest, 2), stampEcho := Read32(rest, 6)))
    else Ok(acc)
  }

  function ParseFrom(rest: bytes, acc: SynOptions): (r: Parsed)
    decreases |rest|
  {
    if rest == [] || rest[0] == 0 then Ok(acc)
    else if rest[0] == 1 then ParseFrom(rest[1..], acc)
    else if |rest| < 2 then Err(Truncated)
    else if rest[1] < 2 then Err(InvalidLength)
    else if rest[1] > |rest| then Err(Truncated)
    else
      var t := Take(rest, acc);
      if t.Err? then t else ParseFrom(rest[rest[1]..], t.options)
  }

  function ParseSyn(data: bytes): (r: Parsed)
  {
    if |data| > CAPACITY then Err(TooLong) else ParseFrom(data, NONE)
  }

  method ParseTcpSynOptions(data: bytes) returns (r: Parsed)
    ensures r == ParseSyn(data)
  {
    if |data| > CAPACITY {
      return Err(TooLong);
    }
    var options := NONE;
    var offset := 0;
    assert data[0..] == data;
    while offset < |data|
      invariant 0 <= offset <= |data| && ParseFrom(data[offset..], options) == ParseFrom(data, NONE)
    {
      var kind := data[offset];
      if kind == 0 {
        break;
      }
      if kind == 1 {
        assert data[offset..][1..] == data[offset + 1..];
        offset := offset + 1;
        continue;
      }
      if |data| - offset < 2 {
        return Err(Truncated);
      }
      var length := data[offset + 1];
      if length < 2 {
        return Err(InvalidLength);
      }
      if length > |data| - offset {
        return Err(Truncated);
      }
      var t := Take(data[offset..], options);
      if t.Err? {
        return t;
      }
      options := t.options;
      assert data[offset..][length..] == data[offset + length..];
      offset := offset + length;
    }
    return Ok(options);
  }

  function ReadBlocks(rest: bytes, at: nat, n: nat): (r: seq<SackBlock>)
    requires at + 8 * n <= |rest|
    ensures |r| == n
    decreases n
  {
    if n == 0 then [] else [SackBlock(Read32(rest, at), Read32(rest, at + 4))] + ReadBlocks(rest, at + 8, n - 1)
  }

  /** At most four blocks are kept. */
  function Capped(have: seq<SackBlock>, more: seq<SackBlock>): (r: seq<SackBlock>)
  {
    if |have| + |more| <= 4 then have + more else if |have| >= 4 then have else have + more[..4 - |have|]
  }

  function SackFrom(rest: bytes, acc: seq<SackBlock>): (r: seq<SackBlock>)
    decreases |rest|
  {
    if rest == [] || rest[0] == 0 then acc
    else if rest[0] == 1 then SackFrom(rest[1..], acc)
    else if |rest| < 2 || rest[1] < 2 || rest[1] > |rest| then acc
    else if rest[0] == 5 && (rest[1] - 2) % 8 != 0 then acc
    else
      SackFrom(rest[rest[1]..], if rest[0] == 5 then Capped(acc, ReadBlocks(rest, 2, (rest[1] - 2) / 8)) else acc)
  }

  function ParseSack(data: bytes): (r: seq<SackBlock>)
  {
    SackFrom(data, [])
  }

  method CopyBlocks(rest: bytes, n: nat, have: seq<SackBlock>) returns (r: seq<SackBlock>)
    requires 2 + 8 * n <= |rest|
    ensures r == Capped(have, ReadBlocks(rest, 2, n))
  {
    r := have;
    var i := 0;
    while i < n && |r| < 4
      invariant 0 <= i <= n && Capped(r, ReadBlocks(rest, 2 + 8 * i, n - i)) == Capped(have, ReadBlocks(rest, 2, n))
    {
      ghost var tail := ReadBlocks(rest, 2 + 8 * (i + 1), n - (i + 1));
      var block := SackBlock(Read32(rest, 2 + 8 * i), Read32(rest, 2 + 8 * i + 4));
      assert ReadBlocks(rest, 2 + 8 * i, n - i) == [block] + tail;
      r := r + [block];
      i := i + 1;
    }
  }

  method ParseTcpSackBlocks(data: bytes) returns (r: seq<SackBlock>)
    ensures r == ParseSack(data)
  {
    r := [];
    var offset := 0;
    assert data[0..] == data;
    while offset < |data|
      invariant 0 <= offset <= |data| && SackFrom(data[offset..], r) == ParseSack(data)
    {
      var kind := data[offset];
      if kind == 0 {
        break;
      }
      if kind == 1 {
        assert data[offset..][1..] == data[offset + 1..];
        offset := offset + 1;
        continue;
      }
      if |data| - offset < 2 {
        break;
      }
      var length := data[offset + 1];
      if length < 2 || length > |data| - offset {
        break;
      }
      if kind == 5 {
        if (length - 2) % 8 != 0 {
          break;
        }
        r := CopyBlocks(data[offset..], (length - 2) / 8, r);
      }
      assert data[offset..][length..] == data[offset + length..];
      offset := offset + length;
    }
  }

  // ---------------------------------------------------------------------------------
  // Round trips.
  // ---------------------------------------------------------------------------------

  /** What the wire can carry of a set of options: absent fields are zero, the scale at most 14. */
  function Normal(o: SynOptions): (r: SynOptions)
  {
    SynOptions(o.mssPresent, if o.mssPresent then o.mss else 0,
               o.scalePresent, if !o.scalePresent then 0 else if o.scale < 14 then o.scale else 14,
               o.sackPermitted, o.stampPresent, if o.stampPresent then o.stampValue else 0,
               if o.stampPresent then o.stampEcho else 0)
  }

  lemma ParsePadding(n: nat, acc: SynOptions)
    ensures ParseFrom(Padding(n), acc) == Ok(acc)
  {
  }

  lemma StepMss(o: SynOptions, rest: bytes, acc: SynOptions)
    requires Fits(o) && !acc.mssPresent && o.mssPresent
    ensures ParseFrom(MssBytes(o) + rest, acc) ==
            if o.mss == 0 then Err(InvalidMss) else ParseFrom(rest, acc.(mssPresent := true, mss := o.mss))
  {
    var s := MssBytes(o) + rest;
    Be16Reads(o.mss);
    assert s == [2, 4] + Be16(o.mss) + rest;
    ReadAt(s, [2, 4], Be16(o.mss), rest);
    assert s[4..] == rest;
  }

  lemma StepSackPermitted(o: SynOptions, rest: bytes, acc: SynOptions)
    requires !acc.sackPermitted && o.sackPermitted
    ensures ParseFrom(SackPermittedBytes(o) + rest, acc) == ParseFrom(rest, acc.(sackPermitted := true))
  {
    var s := SackPermittedBytes(o) + rest;
    assert s[2..] == rest;
  }

  lemma StampReads(value: int, echo: int, rest: bytes)
    requires Wide(value) && Wide(echo)
    ensures var s := [8, 10] + Be32(value) + Be32(echo) + rest; Read32(s, 2) == value && Read32(s, 6) == echo && s[10..] == rest
  {
    var s := [8, 10] + Be32(value) + Be32(echo) + rest;
    Be32Reads(value);
    Be32Reads(echo);
    hide Be32, Read32;
    assert s == [8, 10] + Be32(value) + (Be32(echo) + rest);
    ReadAt(s, [8, 10], Be32(value), Be32(echo) + rest);
    ReadAt(s, [8, 10] + Be32(value), Be32(echo), rest);
  }

  lemma StepStamp(value: int, echo: int, rest: bytes, acc: SynOptions)
    requires Wide(value) && Wide(echo) && !acc.stampPresent
    ensures ParseFrom(StampBytes(true, value, echo) + rest, acc) ==
            ParseFrom(rest, acc.(stampPresent := true, stampValue := value, stampEcho := echo))
  {
    StampReads(value, echo, rest);
    hide Be32, Read32;
    var s := [8, 10] + Be32(value) + Be32(echo) + rest;
    var all := StampBytes(true, value, echo) + rest;
    assert ParseFrom(s, acc) == ParseFrom(rest, acc.(stampPresent := true, stampValue := value, stampEcho := echo)) by {
      StampUnfolds(s, acc);
    }
    assert all[1..][1..] == s && all[0] == 1 && all[1..][0] == 1;
    hide ParseFrom;
    Nop(all, acc);
    Nop(all[1..], acc);
  }

  lemma Nop(s: bytes, acc: SynOptions)
    requires s != [] && s[0] == 1
    ensures ParseFrom(s, acc) == ParseFrom(s[1..], acc)
  {
  }

  lemma StampUnfolds(s: bytes, acc: SynOptions)
    requires |s| >= 10 && s[0] == 8 && s[1] == 10 && !acc.stampPresent
    ensures ParseFrom(s, acc) == ParseFrom(s[10..], acc.(stampPresent := true, stampValue := Read32(s, 2), stampEcho := Read32(s, 6)))
  {
    hide Read32;
  }

  lemma StepScale(o: SynOptions, rest: bytes, acc: SynOptions)
    requires Fits(o) && !acc.scalePresent && o.scalePresent
    ensures ParseFrom(ScaleBytes(o) + rest, acc) ==
            ParseFrom(rest, acc.(scalePresent := true, scale := if o.scale < 14 then o.scale else 14))
  {
    var all := ScaleBytes(o) + rest;
    var s := all[1..];
    assert all[0] == 1 && s[0] == 3 && s[1] == 3 && s[2] == (if o.scale < 14 then o.scale else 14) && s[3..] == rest;
    assert ParseFrom(all, acc) == ParseFrom(s, acc);
  }

  /** Parsing what was printed gives the options back, unless an MSS of zero was asked for. */
  lemma SynRoundTrip(o: SynOptions)
    requires Fits(o)
    ensures ParseSyn(SynBytes(o)) == if o.mssPresent && o.mss == 0 then Err(InvalidMss) else Ok(Normal(o))
  {
    hide MssBytes, SackPermittedBytes, StampBytes, ScaleBytes, ParseFrom, Padding;
    var pad := Padding(|SynBody(o)|);
    var d := ScaleBytes(o) + pad;
    var c := StampBytes(o.stampPresent, o.stampValue, o.stampEcho) + d;
    var b := SackPermittedBytes(o) + c;
    assert SynBytes(o) == MssBytes(o) + b;
    if o.mssPresent { StepMss(o, b, NONE); } else { SkipAbsent(o, b); }
    var acc := NONE.(mssPresent := o.mssPresent, mss := Normal(o).mss);
    if o.sackPermitted { StepSackPermitted(o, c, acc); } else { SkipAbsent(o, c); }
    acc := acc.(sackPermitted := o.sackPermitted);
    if o.stampPresent { StepStamp(o.stampValue, o.stampEcho, d, acc); } else { SkipAbsent(o, d); }
    acc := acc.(stampPresent := o.stampPresent, stampValue := Normal(o).stampValue, stampEcho := Normal(o).stampEcho);
    if o.scalePresent { StepScale(o, pad, acc); } else { SkipAbsent(o, pad); }
    ParsePadding(|SynBody(o)|, Normal(o));
  }

  lemma SkipAbsent(o: SynOptions, rest: bytes)
    ensures !o.mssPresent ==> MssBytes(o) + rest == rest
    ensures !o.sackPermitted ==> SackPermittedBytes(o) + rest == rest
    ensures !o.stampPresent ==> StampBytes(o.stampPresent, o.stampValue, o.stampEcho) + rest == rest
    ensures !o.scalePresent ==> ScaleBytes(o) + rest == rest
  {
  }

  ghost predicate BlocksFit(blocks: seq<SackBlock>)
  {
    forall i :: 0 <= i < |blocks| ==> Wide(blocks[i].left) && Wide(blocks[i].right)
  }

  lemma Regroup(front: bytes, l: bytes, r: bytes, a: bytes, rest: bytes)
    ensures var s := front + (l + r + a) + rest;
            s == front + l + (r + a + rest) == (front + l) + r + (a + rest) == (front + l + r) + a + rest
  {
  }

  lemma {:induction false} BlocksRead(front: bytes, blocks: seq<SackBlock>, rest: bytes)
    requires BlocksFit(blocks)
    ensures ReadBlocks(front + BlockBytes(blocks) + rest, |front|, |blocks|) == blocks
    decreases |blocks|
  {
    if blocks != [] {
      var l, r, a := Be32(blocks[0].left), Be32(blocks[0].right), BlockBytes(blocks[1..]);
      var s := front + BlockBytes(blocks) + rest;
      Be32Reads(blocks[0].left);
      Be32Reads(blocks[0].right);
      assert BlockBytes(blocks) == l + r + a;
      BlocksRead(front + l + r, blocks[1..], rest);
      hide Be32, Read32, BlockBytes;
      Regroup(front, l, r, a, rest);
      ReadAt(s, front, l, r + a + rest);
      ReadAt(s, front + l, r, a + rest);
    }
  }

  lemma SackPadding(n: nat, acc: seq<SackBlock>)
    ensures SackFrom(Padding(n), acc) == acc
  {
  }

  lemma SackSkipsStamp(value: int, echo: int, rest: bytes)
    ensures SackFrom(StampBytes(true, value, echo) + rest, []) == SackFrom(rest, [])
  {
    var all := StampBytes(true, value, echo) + rest;
    var s := all[1..][1..];
    assert all[0] == 1 && all[1..][0] == 1 && s[0] == 8 && s[1] == 10 && s[10..] == rest;
    assert SackFrom(all, []) == SackFrom(all[1..], []) == SackFrom(s, []);
  }

  lemma SackUnfolds(s: bytes, n: nat, acc: seq<SackBlock>)
    requires 2 + 8 * n <= |s| && s[0] == 5 && s[1] == 2 + 8 * n
    ensures SackFrom(s, acc) == SackFrom(s[2 + 8 * n..], Capped(acc, ReadBlocks(s, 2, n)))
  {
    EightTimes(n);
    hide Capped, ReadBlocks;
  }

  lemma SackReads(blocks: seq<SackBlock>, rest: bytes)
    requires BlocksFit(blocks) && 0 < |blocks| <= 4
    ensures SackFrom(SackBytes(blocks) + rest, []) == SackFrom(rest, blocks)
  {
    hide SackFrom, BlockBytes, ReadBlocks;
    var s := SackBytes(blocks) + rest;
    var n := |blocks|;
    assert s == [5, 2 + 8 * n] + BlockBytes(blocks) + rest;
    BlocksRead([5, 2 + 8 * n], blocks, rest);
    SackUnfolds(s, n, []);
    assert s[2 + 8 * n..] == rest;
    assert [] + blocks == blocks;
  }

  lemma EightTimes(n: nat)
    ensures 8 * n % 8 == 0 && 8 * n / 8 == n
  {
  }

  /** The blocks that fit come back in order. */
  lemma SackRoundTrip(stamped: bool, value: int, echo: int, blocks: seq<SackBlock>)
    requires BlocksFit(blocks)
    ensures ParseSack(AckBytes(stamped, value, echo, blocks)) == Kept(stamped, blocks)
  {
    hide SackFrom, StampBytes, SackBytes, Padding;
    var kept := Kept(stamped, blocks);
    var pad := Padding(|AckBody(stamped, value, echo, blocks)|);
    assert AckBytes(stamped, value, echo, blocks) == StampBytes(stamped, value, echo) + (SackBytes(kept) + pad);
    StampAbsent(value, echo, SackBytes(kept) + pad);
    SackSkipsStamp(value, echo, SackBytes(kept) + pad);
    if kept != [] {
      SackReads(kept, pad);
    } else {
      NoSack(pad);
    }
    SackPadding(|AckBody(stamped, value, echo, blocks)|, kept);
  }

  lemma NoSack(rest: bytes)
    ensures SackBytes([]) + rest == rest
  {
  }

  lemma StampAbsent(value: int, echo: int, rest: bytes)
    ensures StampBytes(false, value, echo) + rest == rest
  {
  }

  /** The SYN option parser, used on every segment, reads the timestamp of an ACK and skips its blocks. */
  lemma StampRoundTrip(stamped: bool, value: int, echo: int, blocks: seq<SackBlock>)
    requires Wide(value) && Wide(echo)
    ensures ParseSyn(AckBytes(stamped, value, echo, blocks)) ==
            Ok(if stamped then NONE.(stampPresent := true, stampValue := value, stampEcho := echo) else NONE)
  {
    hide ParseFrom, StampBytes, SackBytes, Padding;
    var kept := Kept(stamped, blocks);
    var pad := Padding(|AckBody(stamped, value, echo, blocks)|);
    var acc := if stamped then NONE.(stampPresent := true, stampValue := value, stampEcho := echo) else NONE;
    assert AckBytes(stamped, value, echo, blocks) == StampBytes(stamped, value, echo) + (SackBytes(kept) + pad);
    StampAbsent(value, echo, SackBytes(kept) + pad);
    StepStamp(value, echo, SackBytes(kept) + pad, NONE);
    if kept != [] {
      SynSkipsSack(kept, pad, acc);
    } else {
      NoSack(pad);
    }
    ParsePadding(|AckBody(stamped, value, echo, blocks)|, acc);
  }

  lemma SynSkipsSack(blocks: seq<SackBlock>, rest: bytes, acc: SynOptions)
    requires 0 < |blocks| <= 4
    ensures ParseFrom(SackBytes(blocks) + rest, acc) == ParseFrom(rest, acc)
  {
    var s := SackBytes(blocks) + rest;
    var n := |blocks|;
    assert s[0] == 5 && s[1] == 2 + 8 * n && s[2 + 8 * n..] == rest;
  }
}

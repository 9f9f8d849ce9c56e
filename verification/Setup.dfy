/** The setup payload: build_setup on one side, read_setup and main's decoding on the other. */
module Setup {
  import opened Bytes

  const SETUP_MAX := 16 * 1024 * 1024

  type u16 = n: int | 0 <= n < 0x1_0000
  type u32 = n: int | 0 <= n < 0x1_0000_0000

  /** The byte order of the machine both programs run on. */
  datatype Order = Little | Big

  datatype Param = Param(name: Bytes, value: Bytes)

  datatype Command = Command(
    cmd: byte, memory: u16, threads: u16, parsers: u16,
    timezone: Bytes, query: Bytes, params: seq<Param>)

  // ---- The printer ------------------------------------------------------

  function PutU16(o: Order, v: u16): (s: Bytes)
    ensures |s| == 2
  {
    if o == Little then [v % 256, v / 256] else [v / 256, v % 256]
  }

  function PutU32(o: Order, v: u32): (s: Bytes)
    ensures |s| == 4
  {
    if o == Little then PutU16(o, v % 0x1_0000) + PutU16(o, v / 0x1_0000)
    else PutU16(o, v / 0x1_0000) + PutU16(o, v % 0x1_0000)
  }

  /** What is left of a string whose length was cast to uint32. */
  function Cut32(s: Bytes): Bytes
  {
    s[..|s| % 0x1_0000_0000]
  }

  function PutString(o: Order, s: Bytes): Bytes
  {
    PutU32(o, |s| % 0x1_0000_0000) + Cut32(s)
  }

  function PutParams(o: Order, params: seq<Param>): Bytes
  {
    if params == [] then []
    else PutString(o, params[0].name) + (PutString(o, params[0].value) + PutParams(o, params[1..]))
  }

  /** The payload src/setup.h describes. */
  function Build(o: Order, c: Command): Bytes
  {
    [c.cmd] + (PutU16(o, c.memory) + (PutU16(o, c.threads) + (PutU16(o, c.parsers)
    + (PutString(o, c.timezone) + (PutString(o, c.query)
    + (PutU16(o, |c.params| % 0x1_0000) + PutParams(o, c.params)))))))
  }

  /** The fixed part, byte by byte: command, memory, threads, parsers. */
  lemma HeaderLayout(o: Order, c: Command)
    ensures var s := Build(o, c); var low := if o == Little then 0 else 1; var high := 1 - low;
            && |s| >= 7 && s[0] == c.cmd
            && s[1 + low] == c.memory % 256 && s[1 + high] == c.memory / 256
            && s[3 + low] == c.threads % 256 && s[3 + high] == c.threads / 256
            && s[5 + low] == c.parsers % 256 && s[5 + high] == c.parsers / 256
  {
    hide PutString, PutParams;
    var tail := PutString(o, c.timezone) + (PutString(o, c.query) + (PutU16(o, |c.params| % 0x1_0000) + PutParams(o, c.params)));
    assert Build(o, c) ==
      [c.cmd] + (PutU16(o, c.memory) + (PutU16(o, c.threads) + (PutU16(o, c.parsers) + tail)));
  }

  lemma LengthLayout(o: Order, v: u32)
    ensures PutU32(o, v) ==
            if o == Little then [v % 256, v / 256 % 256, v / 65536 % 256, v / 16777216]
            else [v / 16777216, v / 65536 % 256, v / 256 % 256, v % 256]
  {
    LowDigits(v);
    HighDigits(v);
  }

  lemma LowDigits(v: u32)
    ensures v % 65536 % 256 == v % 256 && v % 65536 / 256 == v / 256 % 256
  {
    var high, low := v / 65536, v % 65536;
    ByteOff(v, 256 * high + low / 256, low % 256);
    ByteOff(256 * high + low / 256, high, low / 256);
  }

  /** Dividing by 256 takes one byte off. */
  lemma ByteOff(v: nat, rest: nat, digit: nat)
    requires v == 256 * rest + digit && digit < 256
    ensures v / 256 == rest && v % 256 == digit
  {
  }

  lemma HighDigits(v: u32)
    ensures v / 65536 / 256 == v / 16777216 && v / 65536 % 256 == v / 65536 - v / 16777216 * 256
  {
  }

  /** A string: its length in four bytes, then its bytes. */
  lemma StringLayout(o: Order, s: Bytes)
    requires |s| < 0x1_0000_0000
    ensures PutString(o, s) ==
            (if o == Little then [|s| % 256, |s| / 256 % 256, |s| / 65536 % 256, |s| / 16777216]
             else [|s| / 16777216, |s| / 65536 % 256, |s| / 256 % 256, |s| % 256]) + s
  {
    hide PutU32;
    LengthLayout(o, |s|);
    CutIsIdentity(s);
  }

  // ---- The parser -------------------------------------------------------

  type Parsed<T> = Option<(T, Bytes)>

  function Take1(s: Bytes): Parsed<byte>
  {
    if s == [] then None else Some((s[0], s[1..]))
  }

  function GetU16(o: Order, s: Bytes): u16
    requires |s| == 2
  {
    var a: int, b: int := s[0], s[1];
    if o == Little then a + 256 * b else b + 256 * a
  }

  function GetU32(o: Order, s: Bytes): u32
    requires |s| == 4
  {
    if o == Little then GetU16(o, s[..2]) + 0x1_0000 * GetU16(o, s[2..])
    else GetU16(o, s[2..]) + 0x1_0000 * GetU16(o, s[..2])
  }

  function Take2(o: Order, s: Bytes): Parsed<u16>
  {
    if |s| < 2 then None else Some((GetU16(o, s[..2]), s[2..]))
  }

  function TakeStr(o: Order, s: Bytes): Parsed<Bytes>
  {
    if |s| < 4 then None
    else
      var len := GetU32(o, s[..4]);
      if |s| - 4 < len then None else Some((s[4..4 + len], s[4 + len..]))
  }

  function TakeParams(o: Order, s: Bytes, n: nat): Parsed<seq<Param>>
  {
    if n == 0 then Some(([], s))
    else
      match TakeStr(o, s)
      case None => None
      case Some((name, s1)) =>
        match TakeStr(o, s1)
        case None => None
        case Some((value, s2)) =>
          match TakeParams(o, s2, n - 1)
          case None => None
          case Some((params, rest)) => Some(([Param(name, value)] + params, rest))
  }

  /** main's take sequence, with what it leaves unread. */
  function Parse(o: Order, s: Bytes): Parsed<Command>
  {
    match Take1(s) case None => None case Some((cmd, s1)) =>
    match Take2(o, s1) case None => None case Some((memory, s2)) =>
    match Take2(o, s2) case None => None case Some((threads, s3)) =>
    match Take2(o, s3) case None => None case Some((parsers, s4)) =>
    match TakeStr(o, s4) case None => None case Some((timezone, s5)) =>
    match TakeStr(o, s5) case None => None case Some((query, s6)) =>
    match Take2(o, s6) case None => None case Some((npar, s7)) =>
    match TakeParams(o, s7, npar) case None => None case Some((params, rest)) =>
    Some((Command(cmd, memory, threads, parsers, timezone, query, params), rest))
  }

  // ---- The parser inverts the printer -------------------------------------

  lemma Take2Put(o: Order, v: u16, rest: Bytes)
    ensures Take2(o, PutU16(o, v) + rest) == Some((v, rest))
  {
    var s := PutU16(o, v) + rest;
    assert s[..2] == PutU16(o, v) && s[2..] == rest;
  }

  lemma GetPutU32(o: Order, v: u32)
    ensures GetU32(o, PutU32(o, v)) == v
  {
    var s := PutU32(o, v);
    var low, high := PutU16(o, v % 0x1_0000), PutU16(o, v / 0x1_0000);
    assert if o == Little then s[..2] == low && s[2..] == high else s[..2] == high && s[2..] == low;
    Take2Put(o, v % 0x1_0000, []);
    Take2Put(o, v / 0x1_0000, []);
    assert low + [] == low && high + [] == high && low[..2] == low && high[..2] == high;
  }

  lemma TakeStrPut(o: Order, s: Bytes, rest: Bytes)
    ensures TakeStr(o, PutString(o, s) + rest) == Some((Cut32(s), rest))
  {
    var len: u32 := |s| % 0x1_0000_0000;
    var t := PutString(o, s) + rest;
    assert t == PutU32(o, len) + (Cut32(s) + rest);
    assert t[..4] == PutU32(o, len);
    GetPutU32(o, len);
    assert t[4..4 + len] == Cut32(s) && t[4 + len..] == rest;
  }

  function CutParams(params: seq<Param>): (r: seq<Param>)
    ensures |r| == |params|
  {
    seq(|params|, i requires 0 <= i < |params| => Param(Cut32(params[i].name), Cut32(params[i].value)))
  }

  lemma TakeParamPut(o: Order, p: Param, tail: Bytes, n: nat)
    requires TakeParams(o, tail, n).Some?
    ensures TakeParams(o, PutString(o, p.name) + (PutString(o, p.value) + tail), n + 1) ==
            Some(([Param(Cut32(p.name), Cut32(p.value))] + TakeParams(o, tail, n).value.0, TakeParams(o, tail, n).value.1))
  {
    hide PutString, TakeStr, Cut32;
    TakeStrPut(o, p.name, PutString(o, p.value) + tail);
    TakeStrPut(o, p.value, tail);
  }

  lemma {:induction false} TakeParamsPut(o: Order, params: seq<Param>, n: nat)
    requires n <= |params|
    ensures TakeParams(o, PutParams(o, params), n) == Some((CutParams(params[..n]), PutParams(o, params[n..])))
  {
    hide PutString, Cut32, TakeStr;
    if n == 0 {
      assert params[0..] == params;
    } else {
      var p := params[0];
      var tail := PutParams(o, params[1..]);
      TakeParamsPut(o, params[1..], n - 1);
      TakeParamPut(o, p, tail, n - 1);
      assert PutParams(o, params) == PutString(o, p.name) + (PutString(o, p.value) + tail);
      assert params[1..][n - 1..] == params[n..];
      assert CutParams(params[..n]) == [Param(Cut32(p.name), Cut32(p.value))] + CutParams(params[1..][..n - 1]);
    }
  }

  /** What survives the casts to uint32 and uint16. */
  function Kept(c: Command): Command
  {
    c.(timezone := Cut32(c.timezone), query := Cut32(c.query),
       params := CutParams(c.params[..|c.params| % 0x1_0000]))
  }

  function Unread(o: Order, c: Command): Bytes
  {
    PutParams(o, c.params[|c.params| % 0x1_0000..])
  }

  lemma ParseBuild(o: Order, c: Command)
    ensures Parse(o, Build(o, c)) == Some((Kept(c), Unread(o, c)))
  {
    hide Take2, TakeStr, TakeParams, PutU16, PutString, PutParams, CutParams, Cut32;
    var n := |c.params| % 0x1_0000;
    var s7 := PutParams(o, c.params);
    var s6 := PutU16(o, n) + s7;
    var s5 := PutString(o, c.query) + s6;
    var s4 := PutString(o, c.timezone) + s5;
    var s3 := PutU16(o, c.parsers) + s4;
    var s2 := PutU16(o, c.threads) + s3;
    var s1 := PutU16(o, c.memory) + s2;
    assert Build(o, c) == [c.cmd] + s1;
    assert ([c.cmd] + s1)[1..] == s1;
    Take2Put(o, c.memory, s2);
    Take2Put(o, c.threads, s3);
    Take2Put(o, c.parsers, s4);
    TakeStrPut(o, c.timezone, s5);
    TakeStrPut(o, c.query, s6);
    Take2Put(o, n, s7);
    TakeParamsPut(o, c.params, n);
  }

  /** A count that fits leaves nothing unread. */
  lemma ParseWhole(o: Order, c: Command)
    requires |c.params| < 0x1_0000
    ensures Parse(o, Build(o, c)) == Some((Kept(c), []))
  {
    hide Parse, Build, Kept, PutParams;
    ParseBuild(o, c);
    NoParams(o);
    assert c.params[|c.params|..] == [];
  }

  // ---- Round trip -------------------------------------------------------

  /** Lengths that fit their prefixes. */
  predicate Fits(c: Command)
  {
    && |c.timezone| < 0x1_0000_0000 && |c.query| < 0x1_0000_0000 && |c.params| < 0x1_0000
    && forall p | p in c.params :: |p.name| < 0x1_0000_0000 && |p.value| < 0x1_0000_0000
  }

  lemma CutIsIdentity(s: Bytes)
    ensures Cut32(s) == s <==> |s| < 0x1_0000_0000
  {
    if |s| < 0x1_0000_0000 {
      assert s[..|s|] == s;
    }
  }

  lemma CutParamsIsIdentity(params: seq<Param>)
    ensures CutParams(params) == params <==>
              forall p | p in params :: |p.name| < 0x1_0000_0000 && |p.value| < 0x1_0000_0000
  {
    hide Cut32;
    forall i | 0 <= i < |params|
      ensures CutParams(params)[i] == params[i] <==>
                |params[i].name| < 0x1_0000_0000 && |params[i].value| < 0x1_0000_0000
    {
      CutIsIdentity(params[i].name);
      CutIsIdentity(params[i].value);
    }
  }

  /** main decodes what build_setup was given exactly when every length fits. */
  lemma RoundTrip(o: Order, c: Command)
    ensures (Parse(o, Build(o, c)) == Some((c, []))) <==> Fits(c)
  {
    hide Parse, Build, Cut32, CutParams;
    ParseBuild(o, c);
    CutIsIdentity(c.timezone);
    CutIsIdentity(c.query);
    CutParamsIsIdentity(c.params);
    if Fits(c) || Kept(c) == c {
      var n := |c.params| % 0x1_0000;
      assert n == |c.params| && c.params[..n] == c.params && c.params[n..] == [];
    }
  }

  // ---- Truncation -------------------------------------------------------

  /** A parse is not disturbed by what follows the bytes it read. */
  lemma TakeStrExtends(o: Order, s: Bytes, more: Bytes)
    requires TakeStr(o, s).Some?
    ensures TakeStr(o, s + more) == Some((TakeStr(o, s).value.0, TakeStr(o, s).value.1 + more))
  {
    var len := GetU32(o, s[..4]);
    assert (s + more)[..4] == s[..4];
    assert (s + more)[4..4 + len] == s[4..4 + len];
    assert (s + more)[4 + len..] == s[4 + len..] + more;
  }

  lemma Take2Extends(o: Order, s: Bytes, more: Bytes)
    requires Take2(o, s).Some?
    ensures Take2(o, s + more) == Some((Take2(o, s).value.0, Take2(o, s).value.1 + more))
  {
    assert (s + more)[..2] == s[..2] && (s + more)[2..] == s[2..] + more;
  }

  lemma {:induction false} TakeParamsExtends(o: Order, s: Bytes, n: nat, more: Bytes)
    requires TakeParams(o, s, n).Some?
    ensures TakeParams(o, s + more, n) == Some((TakeParams(o, s, n).value.0, TakeParams(o, s, n).value.1 + more))
    decreases n
  {
    hide TakeStr;
    if n != 0 {
      TakeStrExtends(o, s, more);
      var s1 := TakeStr(o, s).value.1;
      TakeStrExtends(o, s1, more);
      TakeParamsExtends(o, TakeStr(o, s1).value.1, n - 1, more);
    }
  }

  lemma ParseExtends(o: Order, s: Bytes, more: Bytes)
    requires Parse(o, s).Some?
    ensures Parse(o, s + more) == Some((Parse(o, s).value.0, Parse(o, s).value.1 + more))
  {
    hide Take2, TakeStr, TakeParams;
    assert (s + more)[1..] == s[1..] + more;
    Take2Extends(o, s[1..], more);
    var s2 := Take2(o, s[1..]).value.1;
    Take2Extends(o, s2, more);
    var s3 := Take2(o, s2).value.1;
    Take2Extends(o, s3, more);
    var s4 := Take2(o, s3).value.1;
    TakeStrExtends(o, s4, more);
    var s5 := TakeStr(o, s4).value.1;
    TakeStrExtends(o, s5, more);
    var s6 := TakeStr(o, s5).value.1;
    Take2Extends(o, s6, more);
    TakeParamsExtends(o, Take2(o, s6).value.1, Take2(o, s6).value.0, more);
  }

  /** Every payload cut short is rejected as truncated exactly when the count fits. */
  lemma TruncationRejected(o: Order, c: Command)
    ensures (forall cut | cut < Build(o, c) :: Parse(o, cut).None?) <==> |c.params| < 0x1_0000
  {
    hide Parse, Build, PutParams;
    ParseBuild(o, c);
    var full := Build(o, c);
    if |c.params| < 0x1_0000 {
      assert c.params[|c.params|..] == [];
      assert PutParams(o, []) == [] by { NoParams(o); }
      forall cut | cut < full
        ensures Parse(o, cut).None?
      {
        if Parse(o, cut).Some? {
          var more := full[|cut|..];
          assert cut + more == full;
          ParseExtends(o, cut, more);
        }
      }
    } else {
      ShortCountLeavesRest(o, c);
    }
  }

  /** With a count that wrapped, the payload up to the last counted parameter is accepted. */
  lemma ShortCountLeavesRest(o: Order, c: Command)
    requires 0x1_0000 <= |c.params|
    ensures exists cut :: cut < Build(o, c) && Parse(o, cut).Some?
  {
    hide Parse, PutU16, PutString, PutParams;
    var n := |c.params| % 0x1_0000;
    var short := c.(params := c.params[..n]);
    PutParamsSplit(o, c.params, n);
    assert Build(o, c) == Build(o, short) + PutParams(o, c.params[n..]);
    SomeParams(o, c.params[n..]);
    ParseBuild(o, short);
  }

  lemma NoParams(o: Order)
    ensures PutParams(o, []) == []
  {
  }

  lemma SomeParams(o: Order, params: seq<Param>)
    requires params != []
    ensures PutParams(o, params) != []
  {
  }

  lemma Regroup(a: Bytes, b: Bytes, c: Bytes, d: Bytes)
    ensures a + (b + (c + d)) == (a + (b + c)) + d
  {
  }

  lemma {:induction false} PutParamsSplit(o: Order, params: seq<Param>, n: nat)
    requires n <= |params|
    ensures PutParams(o, params) == PutParams(o, params[..n]) + PutParams(o, params[n..])
  {
    hide PutString;
    if n == 0 {
      assert params[0..] == params;
    } else {
      var name, value := PutString(o, params[0].name), PutString(o, params[0].value);
      PutParamsSplit(o, params[1..], n - 1);
      assert params[..n][1..] == params[1..][..n - 1] && params[n..] == params[1..][n - 1..];
      var mine, rest := PutParams(o, params[1..][..n - 1]), PutParams(o, params[n..]);
      assert params[..n][0] == params[0];
      Regroup(name, value, mine, rest);
    }
  }

  // ---- build_setup ------------------------------------------------------

  /** build_setup: the payload, or None when it is too large to send. */
  method BuildSetup(o: Order, c: Command) returns (r: Option<Bytes>)
    ensures r == if |Build(o, c)| > SETUP_MAX then None else Some(Build(o, c))
  {
    hide PutU16, PutString;
    var buf := [c.cmd] + PutU16(o, c.memory) + PutU16(o, c.threads) + PutU16(o, c.parsers);
    buf := buf + PutString(o, c.timezone);
    buf := buf + PutString(o, c.query);
    buf := buf + PutU16(o, |c.params| % 0x1_0000);
    assert buf + PutParams(o, c.params) == Build(o, c);
    AppendedParams(o, buf, c.params);
    ghost var whole := Build(o, c);
    assert c.params[0..] == c.params;
    for i := 0 to |c.params|
      invariant buf + PutParams(o, c.params[i..]) == whole
    {
      AppendedParams(o, buf, c.params[i..]);
      buf := buf + PutString(o, c.params[i].name);
      buf := buf + PutString(o, c.params[i].value);
      assert c.params[i..][1..] == c.params[i + 1..];
    }
    assert c.params[|c.params|..] == [];
    assert buf == whole by {
      NoParams(o);
      assert buf + [] == buf;
    }
    if |buf| > SETUP_MAX {
      return None;
    }
    return Some(buf);
  }

  lemma Associate(a: Bytes, b: Bytes, c: Bytes, d: Bytes)
    ensures a + (b + (c + d)) == ((a + b) + c) + d
  {
  }

  lemma AppendedParams(o: Order, buf: Bytes, params: seq<Param>)
    ensures params != [] ==>
              buf + PutParams(o, params)
              == buf + PutString(o, params[0].name) + PutString(o, params[0].value) + PutParams(o, params[1..])
  {
    hide PutString;
    if params != [] {
      Associate(buf, PutString(o, params[0].name), PutString(o, params[0].value), PutParams(o, params[1..]));
    }
  }

  // ---- read_setup -------------------------------------------------------

  /** The read end of the setup pipe: what is still to come, in pieces of any size. */
  class SetupPipe {
    var rest: Bytes
    var patience: nat
    ghost var broken: bool   // a read has failed

    /** read(): some bytes, an end of file once nothing is left, EINTR, or an error. */
    method Read(len: nat) returns (got: Bytes, eof: bool, failed: bool)
      requires 0 < len
      modifies this
      ensures got + rest == old(rest) && |got| <= len
      ensures eof ==> old(rest) == [] && !failed
      ensures failed ==> got == []
      ensures got == [] && !eof && !failed ==> patience < old(patience)
      ensures patience <= old(patience)
      ensures if failed then broken else broken == old(broken)
    {
      var n: nat := *;
      var interrupted: bool := *;
      failed := *;
      got, eof := [], false;
      if failed {
        broken := true;
      } else if interrupted && 0 < patience {
        patience := patience - 1;
      } else {
        eof := rest == [];
        n := if 0 < n <= len then n else len;
        n := Min(n, |rest|);
        got, rest := rest[..n], rest[n..];
      }
    }
  }

  datatype Received = Payload(bytes: Bytes) | TooLarge | Unreadable

  /** The capacities a doubling from 64 KiB goes through. */
  predicate IsCap(cap: nat)
  {
    cap in {0x1_0000, 0x2_0000, 0x4_0000, 0x8_0000, 0x10_0000, 0x20_0000, 0x40_0000, 0x80_0000, 0x100_0000}
  }

  lemma DoubleCap(cap: nat)
    requires IsCap(cap)
    ensures if cap * 2 <= SETUP_MAX then IsCap(cap * 2) else cap == SETUP_MAX
  {
  }

  lemma CapIsBounded(cap: nat)
    requires IsCap(cap)
    ensures cap <= SETUP_MAX
  {
  }

  method Grow(buf: array<byte>, cap: nat) returns (bigger: array<byte>)
    requires buf.Length <= cap
    ensures fresh(bigger) && bigger.Length == cap && bigger[..buf.Length] == buf[..]
  {
    bigger := new byte[cap];
    forall i | 0 <= i < buf.Length {
      bigger[i] := buf[i];
    }
  }

  method Place(buf: array<byte>, at: nat, piece: Bytes)
    requires at + |piece| <= buf.Length
    modifies buf
    ensures buf[..at + |piece|] == old(buf[..at]) + piece
  {
    forall i | 0 <= i < |piece| {
      buf[at + i] := piece[i];
    }
  }

  /** One read() behind the bytes already there. */
  method ReadInto(pipe: SetupPipe, buf: array<byte>, got: nat) returns (eof: bool, failed: bool, n: nat)
    requires got < buf.Length
    modifies pipe, buf
    ensures got + n <= buf.Length && buf[..got + n] + pipe.rest == old(buf[..got] + pipe.rest)
    ensures eof ==> n == 0 && pipe.rest == [] && !failed
    ensures n == 0 && !eof && !failed ==> |pipe.rest| == old(|pipe.rest|) && pipe.patience < old(pipe.patience)
    ensures n > 0 ==> |pipe.rest| < old(|pipe.rest|)
    ensures if failed then pipe.broken else pipe.broken == old(pipe.broken)
  {
    var piece;
    ghost var before := buf[..got];
    piece, eof, failed := pipe.Read(buf.Length - got);
    Place(buf, got, piece);
    n := |piece|;
    assert (before + piece) + pipe.rest == before + (piece + pipe.rest);
  }

  /** The buffer doubled when it is full, up to the limit. */
  method MakeRoom(buf: array<byte>, got: nat) returns (bigger: array<byte>, tooLarge: bool)
    requires IsCap(buf.Length) && got <= buf.Length
    ensures tooLarge ==> got == SETUP_MAX
    ensures !tooLarge ==> IsCap(bigger.Length) && got < bigger.Length && bigger[..got] == buf[..got]
    ensures bigger == buf || fresh(bigger)
  {
    hide IsCap;
    DoubleCap(buf.Length);
    bigger, tooLarge := buf, false;
    if got == buf.Length {
      var cap := buf.Length * 2;
      if cap > SETUP_MAX {
        return buf, true;
      }
      bigger := Grow(buf, cap);
    }
  }

  /**
    read_setup, whatever the sizes of the reads: the whole payload when it is shorter
    than 16 MiB, an error when it is not.
   */
  method ReadSetup(pipe: SetupPipe) returns (r: Received)
    modifies pipe
    ensures r.Payload? ==> r.bytes == old(pipe.rest) && |r.bytes| < SETUP_MAX
    ensures r.TooLarge? ==> SETUP_MAX <= |old(pipe.rest)|
    ensures if r.Unreadable? then pipe.broken else pipe.broken == old(pipe.broken)
  {
    var buf := new byte[64 * 1024];
    var got: nat := 0;
    assert IsCap(buf.Length);
    while true
      invariant IsCap(buf.Length) && got <= buf.Length && fresh(buf)
      invariant buf[..got] + pipe.rest == old(pipe.rest) && pipe.broken == old(pipe.broken)
      decreases |pipe.rest|, pipe.patience
    {
      hide IsCap;
      var tooLarge;
      buf, tooLarge := MakeRoom(buf, got);
      if tooLarge {
        return TooLarge;
      }
      CapIsBounded(buf.Length);
      var eof, failed, n := ReadInto(pipe, buf, got);
      got := got + n;
      if eof {
        assert buf[..got] + [] == buf[..got];
        return Payload(buf[..got]);
      }
      if failed {
        return Unreadable;
      }
    }
  }

  // ---- main -------------------------------------------------------------

  /** The cursor main moves over the payload; None stands for the "truncated" exit. */
  class Cursor {
    const data: Bytes
    var at: nat

    predicate Valid()
      reads this
    {
      at <= |data|
    }

    function Rest(): Bytes
      reads this
      requires Valid()
    {
      data[at..]
    }

    constructor (data: Bytes)
      ensures Valid() && Rest() == data
    {
      this.data, at := data, 0;
    }

    method NextByte() returns (r: Option<byte>)
      requires Valid()
      modifies this
      ensures Valid()
      ensures Take1(old(Rest())) == if r.Some? then Some((r.value, Rest())) else None
    {
      if at == |data| {
        return None;
      }
      r := Some(data[at]);
      at := at + 1;
    }

    method NextU16(o: Order) returns (r: Option<u16>)
      requires Valid()
      modifies this
      ensures Valid()
      ensures Take2(o, old(Rest())) == if r.Some? then Some((r.value, Rest())) else None
    {
      if |data| - at < 2 {
        return None;
      }
      assert Rest()[..2] == data[at..at + 2];
      r := Some(GetU16(o, data[at..at + 2]));
      at := at + 2;
    }

    method NextString(o: Order) returns (r: Option<Bytes>)
      requires Valid()
      modifies this
      ensures Valid()
      ensures TakeStr(o, old(Rest())) == if r.Some? then Some((r.value, Rest())) else None
    {
      ghost var rest := Rest();
      if |data| - at < 4 {
        return None;
      }
      assert rest[..4] == data[at..at + 4];
      var len := GetU32(o, data[at..at + 4]);
      at := at + 4;
      if |data| - at < len {
        return None;
      }
      assert rest[4..4 + len] == data[at..at + len] && rest[4 + len..] == data[at + len..];
      r := Some(data[at..at + len]);
      at := at + len;
    }
  }

  /** Taking one more parameter after `n` is taking n + 1. */
  lemma {:induction false} TakeParamsSnoc(o: Order, s: Bytes, n: nat)
    ensures TakeParams(o, s, n).None? ==> TakeParams(o, s, n + 1).None?
    ensures TakeParams(o, s, n).Some? ==>
              var (params, s1) := TakeParams(o, s, n).value;
              TakeParams(o, s, n + 1) ==
                match TakeParams(o, s1, 1)
                case None => None
                case Some((one, rest)) => Some((params + one, rest))
    decreases n
  {
    hide TakeStr;
    if n != 0 {
      match TakeStr(o, s)
      case None =>
      case Some((name, s1)) =>
        match TakeStr(o, s1)
        case None =>
        case Some((value, s2)) =>
          TakeParamsSnoc(o, s2, n - 1);
          assert forall a: seq<Param>, b ::
            [Param(name, value)] + (a + b) == ([Param(name, value)] + a) + b;
    } else {
      assert forall one: seq<Param> :: [] + one == one;
    }
  }

  lemma {:induction false} TruncatedParams(o: Order, s: Bytes, n: nat, m: nat)
    requires n <= m && TakeParams(o, s, n).None?
    ensures TakeParams(o, s, m).None?
  {
    if n < m {
      TruncatedParams(o, s, n, m - 1);
      TakeParamsSnoc(o, s, m - 1);
    }
  }

  /** The loop over the parameters. */
  method DecodeParams(o: Order, cur: Cursor, npar: u16) returns (r: Option<seq<Param>>)
    requires cur.Valid()
    modifies cur
    ensures cur.Valid()
    ensures r.Some? ==> TakeParams(o, old(cur.Rest()), npar) == Some((r.value, cur.Rest()))
    ensures r.None? ==> TakeParams(o, old(cur.Rest()), npar).None?
  {
    hide TakeStr;
    ghost var s := cur.Rest();
    var params := [];
    for i := 0 to npar
      invariant cur.Valid()
      invariant TakeParams(o, s, i) == Some((params, cur.Rest()))
    {
      ghost var s1 := cur.Rest();
      TakeParamsSnoc(o, s, i);
      var name := cur.NextString(o);
      if name.None? {
        TruncatedParams(o, s, i + 1, npar);
        return None;
      }
      var value := cur.NextString(o);
      if value.None? {
        TruncatedParams(o, s, i + 1, npar);
        return None;
      }
      assert TakeParams(o, cur.Rest(), 0) == Some(([], cur.Rest()));
      assert [Param(name.value, value.value)] + [] == [Param(name.value, value.value)];
      params := params + [Param(name.value, value.value)];
    }
    return Some(params);
  }

  /** main's decoding: what it reads is what the parser says, truncation included. */
  method Decode(o: Order, payload: Bytes) returns (r: Option<Command>)
    ensures r == match Parse(o, payload) case None => None case Some((c, _)) => Some(c)
  {
    hide Take1, Take2, TakeStr, TakeParams;
    var cur := new Cursor(payload);
    var cmd := cur.NextByte();
    if cmd.None? { return None; }
    var memory := cur.NextU16(o);
    if memory.None? { return None; }
    var threads := cur.NextU16(o);
    if threads.None? { return None; }
    var parsers := cur.NextU16(o);
    if parsers.None? { return None; }
    var timezone := cur.NextString(o);
    if timezone.None? { return None; }
    var query := cur.NextString(o);
    if query.None? { return None; }
    var npar := cur.NextU16(o);
    if npar.None? { return None; }
    var params := DecodeParams(o, cur, npar.value);
    if params.None? { return None; }
    return Some(Command(cmd.value, memory.value, threads.value, parsers.value,
                        timezone.value, query.value, params.value));
  }

  /**
    The payload's whole way: built, put on a pipe that delivers it in any pieces, read
    and decoded. A command whose payload stays below 16 MiB arrives as it was given.
   */
  method HandOver(o: Order, c: Command, pipe: SetupPipe) returns (sent: Option<Bytes>, r: Received, decoded: Option<Command>)
    requires Fits(c) && !pipe.broken
    modifies pipe
    ensures |Build(o, c)| < SETUP_MAX && !pipe.broken ==> r == Payload(Build(o, c)) && decoded == Some(c)
    ensures decoded.Some? ==> decoded == Some(c)
    ensures sent.None? <==> SETUP_MAX < |Build(o, c)|
    ensures |Build(o, c)| == SETUP_MAX ==> sent.Some? && !r.Payload? && decoded.None?
  {
    decoded := None;
    r := TooLarge;
    sent := BuildSetup(o, c);
    if sent.Some? {
      pipe.rest := sent.value;
      r := ReadSetup(pipe);
      if r.Payload? {
        decoded := Decode(o, r.bytes);
        RoundTrip(o, c);
      }
    }
  }

  /** The two limits disagree: some command is accepted by build_setup and refused by read_setup. */
  lemma AcceptedThenRefused(o: Order, query: Bytes)
    requires |query| == SETUP_MAX - 17
    ensures var c := Command(83, 0, 0, 0, [], query, []);
            Fits(c) && |Build(o, c)| == SETUP_MAX
  {
    var c := Command(83, 0, 0, 0, [], query, []);
    CutIsIdentity(query);
    CutIsIdentity([]);
    assert Build(o, c) == [c.cmd] + PutU16(o, 0) + PutU16(o, 0) + PutU16(o, 0)
                          + PutString(o, []) + PutString(o, query) + PutU16(o, 0) + PutParams(o, []);
  }
}

// Small helpers of the command-line front end: trimming line ends, encoding
// a code point as UTF-8, the thread-count heuristic, the log line filter and
// the `endpoint@device` split of an RPC server address.
module Frontend {
  import opened Wrappers
  import opened CInt
  import opened Decimal

  // ---- trim ----

  predicate IsLineEnd(ch: char) { ch == '\r' || ch == '\n' }

  /** `s` without its trailing run of carriage returns and line feeds. */
  function Trimmed(s: string): (t: string)
    ensures |t| <= |s| && t == s[..|t|]
    ensures |t| > 0 ==> !IsLineEnd(t[|t| - 1])
    ensures forall i :: |t| <= i < |s| ==> IsLineEnd(s[i])
  {
    if |s| > 0 && IsLineEnd(s[|s| - 1]) then Trimmed(s[..|s| - 1]) else s
  }

  /** The three properties of Trimmed single out its result. */
  lemma {:induction false} TrimmedUnique(s: string, t: string)
    requires |t| <= |s| && t == s[..|t|]
    requires |t| > 0 ==> !IsLineEnd(t[|t| - 1])
    requires forall i :: |t| <= i < |s| ==> IsLineEnd(s[i])
    ensures t == Trimmed(s)
    decreases |s|
  {
    if |s| > |t| {
      assert IsLineEnd(s[|s| - 1]);
      var s' := s[..|s| - 1];
      assert t == s'[..|t|];
      TrimmedUnique(s', t);
    }
  }

  lemma TrimmedIdempotent(s: string)
    ensures Trimmed(Trimmed(s)) == Trimmed(s)
  {
  }

  /** Appending line ends does not change the trimmed text. */
  lemma TrimmedIgnoresLineEnds(s: string, ends: string)
    requires forall i :: 0 <= i < |ends| ==> IsLineEnd(ends[i])
    ensures Trimmed(s + ends) == Trimmed(s)
  {
    var t := Trimmed(s);
    assert (s + ends)[..|t|] == t;
    forall i | |t| <= i < |s + ends|
      ensures IsLineEnd((s + ends)[i])
    {
      if i >= |s| {
        assert (s + ends)[i] == ends[i - |s|];
      }
    }
    TrimmedUnique(s + ends, t);
  }

  /** Shortens the string while it ends in '\r' or '\n'. */
  method Trim(s0: string) returns (s: string)
    ensures s == Trimmed(s0)
  {
    var l := |s0|;
    while l > 0
      invariant 0 <= l <= |s0|
      invariant Trimmed(s0[..l]) == Trimmed(s0)
      decreases l
    {
      if s0[l - 1] == '\r' || s0[l - 1] == '\n' {
        assert s0[..l - 1] == s0[..l][..l - 1];
        l := l - 1;
      } else {
        break;
      }
    }
    assert s0[..l] == s0[..|s0|][..l];
    s := s0[..l];
  }

  // ---- append_utf8 ----

  function CodePointLength(ch: bv32): nat
  {
    if ch <= 0x7F then 1
    else if ch <= 0x7FF then 2
    else if ch <= 0xFFFF then 3
    else if ch <= 0x10FFFF then 4
    else 0
  }

  /** A continuation byte `10xxxxxx` carrying the low six bits of `x`. */
  function ContByte(x: bv32): (b: bv8)
    ensures IsContinuation(b)
  {
    (0x80 | (x & 0x3F)) as bv8
  }

  function Lead2(ch: bv32): bv8 { (0xC0 | ((ch >> 6) & 0x1F)) as bv8 }
  function Lead3(ch: bv32): bv8 { (0xE0 | ((ch >> 12) & 0x0F)) as bv8 }
  function Lead4(ch: bv32): bv8 { (0xF0 | ((ch >> 18) & 0x07)) as bv8 }

  /** The bytes the encoder emits for `ch`: nothing above 0x10FFFF. */
  function Utf8Encode(ch: bv32): (bs: seq<bv8>)
    ensures |bs| == CodePointLength(ch)
  {
    if ch <= 0x7F then [ch as bv8]
    else if ch <= 0x7FF then [Lead2(ch), ContByte(ch)]
    else if ch <= 0xFFFF then [Lead3(ch), ContByte(ch >> 6), ContByte(ch)]
    else if ch <= 0x10FFFF then [Lead4(ch), ContByte(ch >> 12), ContByte(ch >> 6), ContByte(ch)]
    else []
  }

  predicate IsContinuation(b: bv8) { b & 0xC0 == 0x80 }

  predicate IsSurrogate(ch: bv32) { 0xD800 <= ch <= 0xDFFF }

  /** The low bits of a continuation byte. */
  function Low6(b: bv8): bv32 { (b & 0x3F) as bv32 }

  function Payload2(b0: bv8, b1: bv8): bv32
  {
    ((b0 & 0x1F) as bv32 << 6) | Low6(b1)
  }

  function Payload3(b0: bv8, b1: bv8, b2: bv8): bv32
  {
    ((b0 & 0x0F) as bv32 << 12) | (Low6(b1) << 6) | Low6(b2)
  }

  function Payload4(b0: bv8, b1: bv8, b2: bv8, b3: bv8): bv32
  {
    ((b0 & 0x07) as bv32 << 18) | (Low6(b1) << 12) | (Low6(b2) << 6) | Low6(b3)
  }

  /**
   * The decoder of section 3 of RFC 3629 for one character: a lead byte
   * `0xxxxxxx`, `110xxxxx`, `1110xxxx` or `11110xxx`, then `10xxxxxx`
   * continuation bytes; overlong forms, surrogates and values above
   * 0x10FFFF are rejected.
   */
  function Utf8Decode(bs: seq<bv8>): Option<bv32>
  {
    if |bs| == 1 then Decode1(bs[0])
    else if |bs| == 2 then Decode2(bs[0], bs[1])
    else if |bs| == 3 then Decode3(bs[0], bs[1], bs[2])
    else if |bs| == 4 then Decode4(bs[0], bs[1], bs[2], bs[3])
    else None
  }

  function Decode1(b0: bv8): Option<bv32>
  {
    if b0 & 0x80 == 0 then Some(b0 as bv32) else None
  }

  function Decode2(b0: bv8, b1: bv8): Option<bv32>
  {
    if b0 & 0xE0 == 0xC0 && IsContinuation(b1) && Payload2(b0, b1) >= 0x80
    then Some(Payload2(b0, b1)) else None
  }

  function Decode3(b0: bv8, b1: bv8, b2: bv8): Option<bv32>
  {
    var v := Payload3(b0, b1, b2);
    if b0 & 0xF0 == 0xE0 && IsContinuation(b1) && IsContinuation(b2) && v >= 0x800 && !IsSurrogate(v)
    then Some(v) else None
  }

  function Decode4(b0: bv8, b1: bv8, b2: bv8, b3: bv8): Option<bv32>
  {
    var v := Payload4(b0, b1, b2, b3);
    if b0 & 0xF8 == 0xF0 && IsContinuation(b1) && IsContinuation(b2) && IsContinuation(b3)
      && 0x10000 <= v <= 0x10FFFF
    then Some(v) else None
  }

  lemma Encode2(ch: bv32)
    requires 0x80 <= ch <= 0x7FF
    ensures Lead2(ch) & 0xE0 == 0xC0 && Payload2(Lead2(ch), ContByte(ch)) == ch
  {
  }

  lemma Encode3(ch: bv32)
    requires 0x800 <= ch <= 0xFFFF
    ensures Lead3(ch) & 0xF0 == 0xE0 && Payload3(Lead3(ch), ContByte(ch >> 6), ContByte(ch)) == ch
  {
  }

  lemma Encode4(ch: bv32)
    requires 0x10000 <= ch <= 0x10FFFF
    ensures Lead4(ch) & 0xF8 == 0xF0
    ensures Payload4(Lead4(ch), ContByte(ch >> 12), ContByte(ch >> 6), ContByte(ch)) == ch
  {
  }

  lemma Reencode2(b0: bv8, b1: bv8)
    requires b0 & 0xE0 == 0xC0 && IsContinuation(b1)
    ensures var v := Payload2(b0, b1); v <= 0x7FF && Lead2(v) == b0 && ContByte(v) == b1
  {
  }

  lemma Reencode3(b0: bv8, b1: bv8, b2: bv8)
    requires b0 & 0xF0 == 0xE0 && IsContinuation(b1) && IsContinuation(b2)
    ensures var v := Payload3(b0, b1, b2);
      v <= 0xFFFF && Lead3(v) == b0 && ContByte(v >> 6) == b1 && ContByte(v) == b2
  {
  }

  lemma Reencode4(b0: bv8, b1: bv8, b2: bv8, b3: bv8, ch: bv32)
    requires Decode4(b0, b1, b2, b3) == Some(ch)
    ensures 0x10000 <= ch <= 0x10FFFF
    ensures Lead4(ch) == b0 && ContByte(ch >> 12) == b1 && ContByte(ch >> 6) == b2 && ContByte(ch) == b3
  {
  }

  /** Every Unicode scalar value decodes back from its encoding. */
  lemma DecodeEncode(ch: bv32)
    requires ch <= 0x10FFFF && !IsSurrogate(ch)
    ensures Utf8Decode(Utf8Encode(ch)) == Some(ch)
  {
    if ch <= 0x7F {
    } else if ch <= 0x7FF {
      Encode2(ch);
    } else if ch <= 0xFFFF {
      Encode3(ch);
    } else {
      Encode4(ch);
    }
  }

  /** Whatever decodes to a character is that character's encoding. */
  lemma EncodeDecode(bs: seq<bv8>, ch: bv32)
    requires Utf8Decode(bs) == Some(ch)
    ensures Utf8Encode(ch) == bs
  {
    if |bs| == 1 {
    } else if |bs| == 2 {
      EncodeDecode2(bs, ch);
    } else if |bs| == 3 {
      EncodeDecode3(bs, ch);
    } else {
      EncodeDecode4(bs, ch);
    }
  }

  lemma EncodeDecode2(bs: seq<bv8>, ch: bv32)
    requires |bs| == 2 && Decode2(bs[0], bs[1]) == Some(ch)
    ensures Utf8Encode(ch) == bs
  {
    Reencode2(bs[0], bs[1]);
    EncodeIs2(ch);
  }

  lemma EncodeDecode3(bs: seq<bv8>, ch: bv32)
    requires |bs| == 3 && Decode3(bs[0], bs[1], bs[2]) == Some(ch)
    ensures Utf8Encode(ch) == bs
  {
    Reencode3(bs[0], bs[1], bs[2]);
    EncodeIs3(ch);
  }

  lemma EncodeDecode4(bs: seq<bv8>, ch: bv32)
    requires |bs| == 4 && Decode4(bs[0], bs[1], bs[2], bs[3]) == Some(ch)
    ensures Utf8Encode(ch) == bs
  {
    Reencode4(bs[0], bs[1], bs[2], bs[3], ch);
    EncodeIs4(ch);
    assert bs == [bs[0], bs[1], bs[2], bs[3]];
  }

  lemma EncodeIs2(ch: bv32)
    requires 0x80 <= ch <= 0x7FF
    ensures Utf8Encode(ch) == [Lead2(ch), ContByte(ch)]
  {
  }

  lemma EncodeIs3(ch: bv32)
    requires 0x800 <= ch <= 0xFFFF
    ensures Utf8Encode(ch) == [Lead3(ch), ContByte(ch >> 6), ContByte(ch)]
  {
  }

  lemma EncodeIs4(ch: bv32)
    requires 0x10000 <= ch <= 0x10FFFF
    ensures Utf8Encode(ch) == [Lead4(ch), ContByte(ch >> 12), ContByte(ch >> 6), ContByte(ch)]
  {
  }

  /**
   * A surrogate code unit is still given three bytes, which the decoder of
   * RFC 3629 rejects.
   */
  lemma SurrogateNotDecodable(ch: bv32)
    requires IsSurrogate(ch)
    ensures |Utf8Encode(ch)| == 3 && Utf8Decode(Utf8Encode(ch)).None?
  {
    Encode3(ch);
  }

  /** Lead byte patterns by length, and continuation bytes after them. */
  lemma EncodeShape(ch: bv32)
    ensures var bs := Utf8Encode(ch);
      && (|bs| == 1 ==> bs[0] & 0x80 == 0)
      && (|bs| == 2 ==> bs[0] & 0xE0 == 0xC0)
      && (|bs| == 3 ==> bs[0] & 0xF0 == 0xE0)
      && (|bs| == 4 ==> bs[0] & 0xF8 == 0xF0)
      && (forall i :: 1 <= i < |bs| ==> IsContinuation(bs[i]))
  {
    if 0x80 <= ch <= 0x7FF {
      Encode2(ch);
    } else if 0x800 <= ch <= 0xFFFF {
      Encode3(ch);
    } else if 0x10000 <= ch <= 0x10FFFF {
      Encode4(ch);
    }
  }

  /** Pushes the UTF-8 bytes of `ch` onto `out0`. */
  method AppendUtf8(ch: bv32, out0: seq<bv8>) returns (out: seq<bv8>)
    ensures out == out0 + Utf8Encode(ch)
  {
    out := out0;
    if ch <= 0x7F {
      out := out + [ch as bv8];
    } else if ch <= 0x7FF {
      out := out + [(0xC0 | ((ch >> 6) & 0x1F)) as bv8];
      out := out + [(0x80 | (ch & 0x3F)) as bv8];
    } else if ch <= 0xFFFF {
      out := out + [(0xE0 | ((ch >> 12) & 0x0F)) as bv8];
      out := out + [(0x80 | ((ch >> 6) & 0x3F)) as bv8];
      out := out + [(0x80 | (ch & 0x3F)) as bv8];
    } else if ch <= 0x10FFFF {
      out := out + [(0xF0 | ((ch >> 18) & 0x07)) as bv8];
      out := out + [(0x80 | ((ch >> 12) & 0x3F)) as bv8];
      out := out + [(0x80 | ((ch >> 6) & 0x3F)) as bv8];
      out := out + [(0x80 | (ch & 0x3F)) as bv8];
    }
  }

  // ---- get_num_physical_cores ----

  /** The default thread count from the hardware's concurrency (0 when unknown). */
  function NumPhysicalCores(hardwareConcurrency: nat): (n: int)
    requires hardwareConcurrency < 0x1_0000_0000
    ensures 1 <= n <= 4 || (n == hardwareConcurrency / 2 && hardwareConcurrency > 4)
    ensures IsInt32(n)
  {
    if hardwareConcurrency > 0 then
      (if hardwareConcurrency <= 4 then hardwareConcurrency else hardwareConcurrency / 2)
    else 4
  }

  /**
   * At least one thread, and for a known count between half of it and all of
   * it: 4 when the count is unknown, every thread up to 4, half of more.
   */
  lemma NumPhysicalCoresBounds(hw: nat)
    requires hw < 0x1_0000_0000
    ensures 1 <= NumPhysicalCores(hw)
    ensures hw > 0 ==> hw / 2 <= NumPhysicalCores(hw) <= hw
    ensures hw == 0 ==> NumPhysicalCores(hw) == 4
    ensures 1 <= hw <= 4 ==> NumPhysicalCores(hw) == hw
    ensures hw > 4 ==> NumPhysicalCores(hw) == hw / 2
  {
  }

  // ---- log_internal ----

  /** The one-letter tag of a log level: ' ', D, I, W, E, '.', or '?' outside 0..5. */
  function Tag(level: int): (t: char)
    ensures t == '?' <==> !(0 <= level < 6)
  {
    if 0 <= level < 6 then [' ', 'D', 'I', 'W', 'E', '.'][level] else '?'
  }

  const NPOS: nat := 0xFFFF_FFFF_FFFF_FFFF

  /** std::string::find_last_not_of: the last index not holding `ch`, or NPOS. */
  function FindLastNotOf(s: string, ch: char): (i: nat)
    requires |s| < NPOS
    ensures i == NPOS || (i < |s| && s[i] != ch && forall j :: i < j < |s| ==> s[j] == ch)
    ensures i == NPOS ==> forall j :: 0 <= j < |s| ==> s[j] == ch
  {
    if |s| == 0 then NPOS
    else if s[|s| - 1] != ch then |s| - 1
    else FindLastNotOf(s[..|s| - 1], ch)
  }

  /** `s.erase(s.find_last_not_of('\n') + 1)`, with size_t wrapping NPOS + 1 to 0. */
  function StripTrailingNewlines(s: string): string
    requires |s| < NPOS
  {
    var pos := (FindLastNotOf(s, '\n') + 1) % (NPOS + 1);
    s[..pos]
  }

  /** The text loses exactly its trailing line feeds; an all-newline text becomes empty. */
  lemma StripTrailingNewlinesSpec(s: string)
    requires |s| < NPOS
    ensures var t := StripTrailingNewlines(s);
      && t == s[..|t|]
      && (|t| > 0 ==> t[|t| - 1] != '\n')
      && (forall i :: |t| <= i < |s| ==> s[i] == '\n')
      && ((forall i :: 0 <= i < |s| ==> s[i] == '\n') <==> t == [])
  {
    var i := FindLastNotOf(s, '\n');
    if i != NPOS {
      assert s[i] != '\n';
    }
  }

  /**
   * The line the logger hands to the streamer: nothing without a streamer
   * (`logLevel` None) or below its level; else the tag and the text without
   * trailing line feeds.
   */
  function LogLine(logLevel: Option<int>, level: int, text: string): (line: Option<string>)
    requires |text| < NPOS
    ensures line.Some? <==> logLevel.Some? && level >= logLevel.value
    ensures line.Some? ==>
      (|line.value| >= 1 && line.value[0] == Tag(level) && line.value[1..] == StripTrailingNewlines(text))
  {
    match logLevel
    case None => None
    case Some(minimum) =>
      if level < minimum then None
      else
        var line := [Tag(level)] + StripTrailingNewlines(text);
        assert line[1..] == StripTrailingNewlines(text);
        Some(line)
  }

  // ---- start_rpc_server ----

  /** The first index of `ch` in `s`, as std::string::find. */
  function Find(s: string, ch: char): (r: Option<nat>)
    ensures r.Some? ==> r.value < |s| && s[r.value] == ch && forall j :: 0 <= j < r.value ==> s[j] != ch
    ensures r.None? ==> forall j :: 0 <= j < |s| ==> s[j] != ch
  {
    if |s| == 0 then None
    else if s[0] == ch then Some(0)
    else match Find(s[1..], ch)
      case None => None
      case Some(i) => Some(i + 1)
  }

  /**
   * `endpoint@device` splits at the first '@' into the address and the
   * device number read by std::stoi (None when stoi throws, which the server
   * start does not catch); without '@' the device is 0.
   */
  function SplitRpcEndpoint(endpoint: string): (r: Option<(string, int)>)
    ensures Find(endpoint, '@').None? ==> r == Some((endpoint, 0))
  {
    match Find(endpoint, '@')
    case None => Some((endpoint, 0))
    case Some(pos) =>
      match StoI(endpoint[pos + 1..])
      case None => None
      case Some(device) => Some((endpoint[..pos], device))
  }

  /**
   * With an '@', the address is the text before the first '@' and the
   * device what stoi reads after it; the split fails exactly when stoi does.
   */
  lemma SplitRpcEndpointAt(endpoint: string, pos: nat)
    requires Find(endpoint, '@') == Some(pos)
    ensures SplitRpcEndpoint(endpoint).None? <==> StoI(endpoint[pos + 1..]).None?
    ensures SplitRpcEndpoint(endpoint).Some? ==>
      var (host, device) := SplitRpcEndpoint(endpoint).value;
      && endpoint == host + "@" + endpoint[pos + 1..]
      && '@' !in host
      && StoI(endpoint[pos + 1..]) == Some(device)
  {
    assert endpoint == endpoint[..pos] + "@" + endpoint[pos + 1..];
    assert forall j :: 0 <= j < pos ==> endpoint[..pos][j] == endpoint[j];
  }

  /** Joining an address without '@' and a printed device number splits back. */
  lemma SplitRpcEndpointRoundTrip(host: string, device: int)
    requires '@' !in host && IsInt32(device)
    ensures SplitRpcEndpoint(host + "@" + IntToString(device)) == Some((host, device))
  {
    var d := IntToString(device);
    SplitAtFirst(host, d, host + "@" + d);
    StoIRoundTrip(device);
  }

  lemma SplitAtFirst(host: string, d: string, e: string)
    requires '@' !in host && e == host + "@" + d
    ensures Find(e, '@') == Some(|host|) && e[..|host|] == host && e[|host| + 1..] == d
  {
    assert e[|host|] == '@';
    assert forall j :: 0 <= j < |host| ==> e[j] == host[j];
    assert e[|host| + 1..] == d;
    assert e[..|host|] == host;
  }
}

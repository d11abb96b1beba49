/**
 The opaque page cursor of the snapshot endpoint: a JSON object in unpadded base64url (section 5 of RFC 4648).
 */
module CursorCodec {
  import opened Prelude

  type Byte = x: nat | x < 256

  // ----- Alphabet -----

  function Letter(v: nat): (c: char)
    requires v < 64
    ensures c != '='
  {
    if v < 26 then 'A' + v as char
    else if v < 52 then 'a' + (v - 26) as char
    else if v < 62 then '0' + (v - 52) as char
    else if v == 62 then '-' else '_'
  }

  function Value(c: char): (r: Option<nat>)
    ensures r.Some? ==> r.value < 64 && Letter(r.value) == c
  {
    if 'A' <= c <= 'Z' then Some((c - 'A') as nat)
    else if 'a' <= c <= 'z' then Some(26 + (c - 'a') as nat)
    else if '0' <= c <= '9' then Some(52 + (c - '0') as nat)
    else if c == '-' then Some(62) else if c == '_' then Some(63) else None
  }

  lemma ValueOfLetter(v: nat)
    requires v < 64
    ensures Value(Letter(v)) == Some(v)
  {}

  // ----- Groups of three bytes -----

  function Group(a: Byte, b: Byte, c: Byte): (s: string)
    ensures |s| == 4 && s[3] != '='
  {
    [Letter(a / 4), Letter(a % 4 * 16 + b / 16), Letter(b % 16 * 4 + c / 64), Letter(c % 64)]
  }

  /** The padded form: every three bytes four letters, a short tail filled up with '='. */
  function Base64(b: seq<Byte>): string {
    if |b| == 0 then ""
    else if |b| == 1 then [Letter(b[0] / 4), Letter(b[0] % 4 * 16), '=', '=']
    else if |b| == 2 then [Letter(b[0] / 4), Letter(b[0] % 4 * 16 + b[1] / 16), Letter(b[1] % 16 * 4), '=']
    else Group(b[0], b[1], b[2]) + Base64(b[3..])
  }

  function FirstByte(v: nat, w: nat): Byte
    requires v < 64 && w < 64
  {
    v * 4 + w / 16
  }

  function SecondByte(v: nat, w: nat): Byte
    requires v < 64 && w < 64
  {
    v % 16 * 16 + w / 4
  }

  function ThirdByte(v: nat, w: nat): Byte
    requires v < 64 && w < 64
  {
    v % 4 * 64 + w
  }

  function Unbase64(s: string): Option<seq<Byte>> {
    if s == "" then Some([])
    else if |s| < 4 then None
    else
      var v0, v1, v2, v3 := Value(s[0]), Value(s[1]), Value(s[2]), Value(s[3]);
      if v0.None? || v1.None? then None
      else if |s| == 4 && s[2] == '=' && s[3] == '=' then Some([FirstByte(v0.value, v1.value)])
      else if v2.None? then None
      else if |s| == 4 && s[3] == '=' then Some([FirstByte(v0.value, v1.value), SecondByte(v1.value, v2.value)])
      else if v3.None? then None
      else
        var rest := Unbase64(s[4..]);
        if rest.None? then None
        else Some([FirstByte(v0.value, v1.value), SecondByte(v1.value, v2.value),
            ThirdByte(v2.value, v3.value)] + rest.value)
  }

  lemma GroupBack(a: Byte, b: Byte, c: Byte)
    ensures FirstByte(a / 4, a % 4 * 16 + b / 16) == a
    ensures SecondByte(a % 4 * 16 + b / 16, b % 16 * 4 + c / 64) == b
    ensures ThirdByte(b % 16 * 4 + c / 64, c % 64) == c
  {}

  lemma OneByteBack(a: Byte)
    ensures Unbase64([Letter(a / 4), Letter(a % 4 * 16), '=', '=']) == Some([a])
  {
    ValueOfLetter(a / 4);
    ValueOfLetter(a % 4 * 16);
    GroupBack(a, 0, 0);
  }

  lemma TwoBytesBack(a: Byte, b: Byte)
    ensures Unbase64([Letter(a / 4), Letter(a % 4 * 16 + b / 16), Letter(b % 16 * 4), '=']) == Some([a, b])
  {
    ValueOfLetter(a / 4);
    ValueOfLetter(a % 4 * 16 + b / 16);
    ValueOfLetter(b % 16 * 4);
    GroupBack(a, b, 0);
  }

  lemma GroupThenRest(a: Byte, b: Byte, c: Byte, s: string)
    ensures Unbase64(Group(a, b, c) + s) == if Unbase64(s).None? then None else Some([a, b, c] + Unbase64(s).value)
  {
    GroupBack(a, b, c);
    ValueOfLetter(a / 4);
    ValueOfLetter(a % 4 * 16 + b / 16);
    ValueOfLetter(b % 16 * 4 + c / 64);
    ValueOfLetter(c % 64);
    assert (Group(a, b, c) + s)[4..] == s;
  }

  lemma {:induction false} Base64RoundTrip(b: seq<Byte>)
    ensures Unbase64(Base64(b)) == Some(b)
    decreases |b|
  {
    if |b| == 1 {
      OneByteBack(b[0]);
      assert b == [b[0]];
    } else if |b| == 2 {
      TwoBytesBack(b[0], b[1]);
      assert b == [b[0], b[1]];
    } else if |b| >= 3 {
      Base64RoundTrip(b[3..]);
      GroupThenRest(b[0], b[1], b[2], Base64(b[3..]));
      assert b == [b[0], b[1], b[2]] + b[3..];
    }
  }

  // ----- Padding off and on again -----

  /** rstrip("=") */
  function Strip(s: string): string {
    if s != "" && s[|s| - 1] == '=' then Strip(s[..|s| - 1]) else s
  }

  /** Up to the next multiple of four. */
  function Pad(s: string): string {
    match |s| % 4
    case 0 => s
    case 1 => s + "==="
    case 2 => s + "=="
    case _ => s + "="
  }

  lemma StripTail(a: string)
    requires a != "" && a[|a| - 1] != '='
    ensures Strip(a + "=") == a && Strip(a + "==") == a
  {
    assert (a + "=")[..|a|] == a;
    assert (a + "==")[..|a| + 1] == a + "=";
  }

  lemma PadPrefix(a: string, s: string)
    requires |a| == 4
    ensures Pad(a + s) == a + Pad(s)
  {}

  /** Padding is a multiple-of-four filler of at most two signs, so it can be dropped and restored. */
  lemma {:induction false} PadRoundTrip(b: seq<Byte>)
    ensures Pad(Strip(Base64(b))) == Base64(b)
    decreases |b|
  {
    if 1 <= |b| <= 2 {
      var s, a := Base64(b), Base64(b)[..|b| + 1];
      StripTail(a);
      assert s == a + if |b| == 1 then "==" else "=";
    } else if |b| >= 3 {
      PadRoundTrip(b[3..]);
      var group, rest := Base64(b)[..4], Base64(b[3..]);
      assert Base64(b) == group + rest;
      StripPrefix(group, rest);
      PadPrefix(group, Strip(rest));
    }
  }

  lemma {:induction false} StripPrefix(a: string, s: string)
    requires a != "" && a[|a| - 1] != '='
    ensures Strip(a + s) == a + Strip(s)
    decreases |s|
  {
    if s == "" {
      assert a + s == a;
    } else {
      assert (a + s)[|a + s| - 1] == s[|s| - 1];
      assert (a + s)[..|a + s| - 1] == a + s[..|s| - 1];
      if s[|s| - 1] == '=' { StripPrefix(a, s[..|s| - 1]); }
    }
  }

  // ----- Numbers -----

  function Decimal(n: nat): (s: string)
    ensures s != ""
  {
    if n < 10 then ['0' + n as char] else Decimal(n / 10) + ['0' + (n % 10) as char]
  }

  function Number(s: string): Option<nat> {
    if s == "" || !('0' <= s[|s| - 1] <= '9') then None
    else
      var d := (s[|s| - 1] - '0') as nat;
      if |s| == 1 then Some(d)
      else
        var high := Number(s[..|s| - 1]);
        if high.None? then None else Some(10 * high.value + d)
  }

  predicate Digits(s: string) {
    forall k | 0 <= k < |s| :: '0' <= s[k] <= '9'
  }

  lemma {:induction false} DecimalRoundTrip(n: nat)
    ensures Number(Decimal(n)) == Some(n) && Digits(Decimal(n))
  {
    if n >= 10 {
      DecimalRoundTrip(n / 10);
      var s := Decimal(n);
      assert s[..|s| - 1] == Decimal(n / 10);
    }
  }

  // ----- The payload -----

  datatype Cursor = Cursor(scan: string, warehouse: nat, item: nat, bin: nat)

  /** Scan ids are UUIDs; what matters is that JSON leaves them as they are. */
  predicate Plain(s: string) {
    forall k | 0 <= k < |s| :: ' ' <= s[k] <= '~' && s[k] != '"' && s[k] != '\\'
  }

  function Payload(c: Cursor): string {
    "{\"scan_id\":\"" + (c.scan + ['"'] + (",\"w\":" + (Decimal(c.warehouse) + [','] +
      ("\"i\":" + (Decimal(c.item) + [','] + ("\"b\":" + (Decimal(c.bin) + ['}'] + "")))))))
  }

  /** What follows a literal. */
  function Expect(s: string, lit: string): Option<string> {
    if |lit| <= |s| && s[..|lit|] == lit then Some(s[|lit|..]) else None
  }

  /** Up to the first `c`, and what follows it. */
  function Until(s: string, c: char): Option<(string, string)> {
    if s == "" then None
    else if s[0] == c then Some(("", s[1..]))
    else
      var r := Until(s[1..], c);
      if r.None? then None else Some(([s[0]] + r.value.0, r.value.1))
  }

  /** A literal, a number and its terminator. */
  function Field(s: Option<string>, lit: string, end: char): Option<(nat, string)> {
    if s.None? then None
    else
      var t := Expect(s.value, lit);
      if t.None? then None
      else
        var u := Until(t.value, end);
        if u.None? then None
        else
          var n := Number(u.value.0);
          if n.None? then None else Some((n.value, u.value.1))
  }

  function Rest(f: Option<(nat, string)>): Option<string> {
    if f.None? then None else Some(f.value.1)
  }

  function Parse(s: string): Option<Cursor> {
    var head := Expect(s, "{\"scan_id\":\"");
    if head.None? then None
    else
      var id := Until(head.value, '"');
      if id.None? then None
      else
        var w := Field(Some(id.value.1), ",\"w\":", ',');
        var i := Field(Rest(w), "\"i\":", ',');
        var b := Field(Rest(i), "\"b\":", '}');
        if b.None? || b.value.1 != "" then None else Some(Cursor(id.value.0, w.value.0, i.value.0, b.value.0))
  }

  lemma ExpectBack(lit: string, rest: string)
    ensures Expect(lit + rest, lit) == Some(rest)
  {}

  lemma {:induction false} UntilBack(a: string, c: char, rest: string)
    requires c !in a
    ensures Until(a + [c] + rest, c) == Some((a, rest))
  {
    var s := a + [c] + rest;
    if a == "" {
      assert s[1..] == rest;
    } else {
      assert a == [a[0]] + a[1..];
      assert s[1..] == a[1..] + [c] + rest;
      UntilBack(a[1..], c, rest);
    }
  }

  lemma FieldBack(lit: string, n: nat, end: char, rest: string)
    requires !('0' <= end <= '9')
    ensures Field(Some(lit + (Decimal(n) + [end] + rest)), lit, end) == Some((n, rest))
  {
    ExpectBack(lit, Decimal(n) + [end] + rest);
    DecimalRoundTrip(n);
    UntilBack(Decimal(n), end, rest);
  }

  lemma ParseBack(c: Cursor)
    requires Plain(c.scan)
    ensures Parse(Payload(c)) == Some(c)
  {
    var b := "\"b\":" + (Decimal(c.bin) + ['}'] + "");
    var i := "\"i\":" + (Decimal(c.item) + [','] + b);
    var w := ",\"w\":" + (Decimal(c.warehouse) + [','] + i);
    ExpectBack("{\"scan_id\":\"", c.scan + ['"'] + w);
    UntilBack(c.scan, '"', w);
    FieldBack(",\"w\":", c.warehouse, ',', i);
    FieldBack("\"i\":", c.item, ',', b);
    FieldBack("\"b\":", c.bin, '}', "");
  }

  // ----- Cursors -----

  predicate Ascii(s: string) {
    forall k | 0 <= k < |s| :: s[k] < 128 as char
  }

  /** UTF-8 of ASCII text. */
  function Bytes(s: string): seq<Byte>
    requires Ascii(s)
  {
    seq(|s|, k requires 0 <= k < |s| => s[k] as nat)
  }

  function Text(b: seq<Byte>): string {
    seq(|b|, k requires 0 <= k < |b| => b[k] as char)
  }

  lemma DecimalAscii(n: nat)
    ensures Ascii(Decimal(n))
  {}

  lemma PayloadAscii(c: Cursor)
    requires Plain(c.scan)
    ensures Ascii(Payload(c))
  {
    DecimalAscii(c.warehouse);
    DecimalAscii(c.item);
    DecimalAscii(c.bin);
    var b := "\"b\":" + (Decimal(c.bin) + ['}'] + "");
    assert Ascii(b);
    var i := "\"i\":" + (Decimal(c.item) + [','] + b);
    assert Ascii(i);
    var w := ",\"w\":" + (Decimal(c.warehouse) + [','] + i);
    assert Ascii(w);
    assert Ascii(c.scan + ['"'] + w);
  }

  function EncodeCursor(c: Cursor): string
    requires Plain(c.scan)
  {
    PayloadAscii(c);
    Strip(Base64(Bytes(Payload(c))))
  }

  function DecodeCursor(raw: string): Option<Cursor> {
    var b := Unbase64(Pad(raw));
    if b.None? then None else Parse(Text(b.value))
  }

  /** A cursor handed out is read back as the key it was made from, and two keys never share a cursor. */
  lemma CursorRoundTrip(c: Cursor)
    requires Plain(c.scan)
    ensures DecodeCursor(EncodeCursor(c)) == Some(c)
  {
    PayloadAscii(c);
    var p := Payload(c);
    PadRoundTrip(Bytes(p));
    Base64RoundTrip(Bytes(p));
    assert Text(Bytes(p)) == p;
    ParseBack(c);
  }
}

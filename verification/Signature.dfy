/** internal/crypto/hmac.go: the signature header. HMAC-SHA256 (section 2 of RFC 2104) is any
    function from a secret and a message to 32 bytes. */
module Signature {
  import opened Options
  import opened Text

  type Digest = b: seq<byte> | |b| == 32 witness seq(32, i => 0)

  type Mac = (seq<byte>, seq<byte>) -> Digest

  function Bytes(s: string): (b: seq<byte>)
    requires forall i :: 0 <= i < |s| ==> s[i] as int < 0x80
    ensures |b| == |s| && forall i :: 0 <= i < |s| ==> b[i] as int == s[i] as int
  {
    seq(|s|, i requires 0 <= i < |s| => s[i] as int as byte)
  }

  function Stamp(ts: int64): (b: seq<byte>)
    ensures |b| == |PrintInt(ts)| && forall i :: 0 <= i < |b| ==> b[i] as int == PrintInt(ts)[i] as int
  {
    var s := PrintInt(ts);
    assert forall i :: 0 <= i < |s| ==> s[i] as int < 0x80 by {
      assert forall i :: 1 <= i < |s| ==> s[i] == s[1..][i - 1];
    }
    Bytes(s)
  }

  const DOT: byte := 46

  /** What is signed: the timestamp, a dot and the body. */
  function Message(ts: int64, body: seq<byte>): seq<byte> { Stamp(ts) + [DOT] + body }

  function Generate(mac: Mac, payload: seq<byte>, secret: seq<byte>, ts: int64): string {
    "t=" + PrintInt(ts) + ",v1=" + Hex(mac(secret, Message(ts, payload)))
  }

  // ---------- Reading the header ----------

  /** The value of the last part that begins with `name`. */
  function LastField(parts: seq<string>, n: nat, name: string): Option<string>
    requires n <= |parts|
  {
    if n == 0 then None
    else if HasPrefix(TrimSpace(parts[n - 1]), name) then Some(TrimSpace(parts[n - 1])[|name|..])
    else LastField(parts, n - 1, name)
  }

  function Field(header: string, name: string): Option<string> {
    var parts := Split(header);
    LastField(parts, |parts|, name)
  }

  function OrEmpty(o: Option<string>): string { if o.Some? then o.value else "" }

  datatype Verdict = Ok | Missing | InvalidFormat | Expired | ClockDrift | Mismatch

  /** What becomes of a header with these two fields. */
  function VerifyFields(
    mac: Mac, body: seq<byte>, t: string, v1: string, secret: seq<byte>, tolerance: int64, now: int64): Verdict
  {
    if t == "" || v1 == "" then InvalidFormat
    else
      match ParseInt(t)
      case None => InvalidFormat
      case Some(ts) =>
        if Minus(now, ts) > tolerance then Expired
        else if Minus(ts, now) > 10 then ClockDrift
        else if Hex(mac(secret, Message(ts, body))) != ToLower(v1) then Mismatch
        else Ok
  }

  /** A `now` of zero means the clock. */
  function Verify(
    mac: Mac, body: seq<byte>, header: string, secret: seq<byte>, tolerance: int64, now: int64, clock: int64): Verdict
  {
    if header == "" then Missing
    else VerifyFields(mac, body, OrEmpty(Field(header, "t=")), OrEmpty(Field(header, "v1=")), secret, tolerance,
                      if now == 0 then clock else now)
  }

  method ParseHeader(header: string) returns (t: string, v1: string)
    ensures t == OrEmpty(Field(header, "t=")) && v1 == OrEmpty(Field(header, "v1="))
  {
    var parts := Split(header);
    t, v1 := "", "";
    for i := 0 to |parts|
      invariant t == OrEmpty(LastField(parts, i, "t=")) && v1 == OrEmpty(LastField(parts, i, "v1="))
    {
      var part := TrimSpace(parts[i]);
      if HasPrefix(part, "t=") {
        assert part[0] == 't';
        t := part[2..];
      } else if HasPrefix(part, "v1=") {
        v1 := part[3..];
      }
    }
  }

  method VerifySignature(
      mac: Mac, rawBody: seq<byte>, signatureHeader: string, secret: seq<byte>, toleranceSeconds: int64, nowUnix: int64,
      clock: int64)
    returns (r: Verdict)
    ensures r == Verify(mac, rawBody, signatureHeader, secret, toleranceSeconds, nowUnix, clock)
  {
    if signatureHeader == "" {
      return Missing;
    }
    var timestampStr, v1Hex := ParseHeader(signatureHeader);
    if timestampStr == "" || v1Hex == "" {
      return InvalidFormat;
    }
    var parsed := ParseInt(timestampStr);
    if parsed.None? {
      return InvalidFormat;
    }
    var ts, now := parsed.value, nowUnix;
    if now == 0 {
      now := clock;
    }
    if Minus(now, ts) > toleranceSeconds {
      return Expired;
    }
    if Minus(ts, now) > 10 {
      return ClockDrift;
    }
    var expectedHex := Hex(mac(secret, Message(ts, rawBody)));
    if expectedHex != ToLower(v1Hex) {
      return Mismatch;
    }
    return Ok;
  }

  // ---------- Only the last t= and the last v1= count ----------

  lemma {:induction false} LastFieldOfAll(p: seq<string>, q: seq<string>, n: nat, name: string)
    requires n <= |q|
    ensures LastField(p + q, |p| + n, name)
            == if LastField(q, n, name).Some? then LastField(q, n, name) else LastField(p, |p|, name)
  {
    if n > 0 {
      assert (p + q)[|p| + n - 1] == q[n - 1];
      LastFieldOfAll(p, q, n - 1, name);
    } else {
      LastFieldOfLonger(p, q, |p|, name);
    }
  }

  lemma {:induction false} LastFieldOfLonger(p: seq<string>, q: seq<string>, n: nat, name: string)
    requires n <= |p|
    ensures LastField(p + q, n, name) == LastField(p, n, name)
  {
    if n > 0 { LastFieldOfLonger(p, q, n - 1, name); }
  }

  /** Cutting a header at any comma: a field is read from the right half if it occurs there, and
      only otherwise from the left. */
  lemma LaterFieldWins(a: string, b: string, name: string)
    ensures Field(a + "," + b, name) == if Field(b, name).Some? then Field(b, name) else Field(a, name)
  {
    SplitAtComma(a, b);
    LastFieldOfAll(Split(a), Split(b), |Split(b)|, name);
  }

  /** Whatever precedes a header that has both fields is ignored. */
  lemma PrefixIsIgnored(
    mac: Mac, body: seq<byte>, junk: string, header: string, secret: seq<byte>, tolerance: int64, now: int64,
    clock: int64)
    requires Field(header, "t=").Some? && Field(header, "v1=").Some?
    ensures Verify(mac, body, junk + "," + header, secret, tolerance, now, clock)
            == Verify(mac, body, header, secret, tolerance, now, clock)
  {
    LaterFieldWins(junk, header, "t=");
    LaterFieldWins(junk, header, "v1=");
    assert Split("") == [""];
    assert TrimSpace("") == "";
  }

  /** The part at index `i` is the last that begins with `name`. */
  ghost predicate IsLast(parts: seq<string>, n: nat, name: string, i: nat)
    requires n <= |parts|
  {
    && i < n && HasPrefix(TrimSpace(parts[i]), name)
    && forall j :: i < j < n ==> !HasPrefix(TrimSpace(parts[j]), name)
  }

  /** A field is what follows its name in the last part that begins with it, without the spaces
      around the part; it is absent if there is no such part. */
  lemma {:induction false} LastFieldExactly(parts: seq<string>, n: nat, name: string)
    requires n <= |parts|
    ensures LastField(parts, n, name).None? <==> forall i :: 0 <= i < n ==> !HasPrefix(TrimSpace(parts[i]), name)
    ensures forall i: nat :: IsLast(parts, n, name, i) ==>
              LastField(parts, n, name) == Some(TrimSpace(parts[i])[|name|..])
  {
    if n > 0 {
      LastFieldExactly(parts, n - 1, name);
      if !HasPrefix(TrimSpace(parts[n - 1]), name) {
        forall i: nat | IsLast(parts, n, name, i)
          ensures LastField(parts, n, name) == Some(TrimSpace(parts[i])[|name|..])
        {
          assert IsLast(parts, n - 1, name, i);
        }
      }
    }
  }

  // ---------- Every verdict ----------

  /** The field is there and not empty. */
  predicate Has(header: string, name: string) { Field(header, name).Some? && Field(header, name).value != "" }

  /** The timestamp of a header that has both fields, if it parses. */
  function StampOf(header: string): Option<int64> {
    if Has(header, "t=") && Has(header, "v1=") then ParseInt(Field(header, "t=").value) else None
  }

  lemma EmptyHeaderHasNoField(name: string)
    requires name != ""
    ensures Field("", name) == None
  {
    assert Split("") == [""] && TrimSpace("") == "";
    assert LastField([""], 0, name) == None;
  }

  /** A header without both fields, or whose timestamp does not parse, is refused as such. */
  lemma Unstamped(
    mac: Mac, body: seq<byte>, header: string, secret: seq<byte>, tolerance: int64, now: int64, clock: int64)
    requires StampOf(header).None?
    ensures Verify(mac, body, header, secret, tolerance, now, clock) == if header == "" then Missing else InvalidFormat
  {}

  /** The age as 64-bit arithmetic computes it lies between -10 and the tolerance, or is the one
      number that is its own negation. */
  predicate InTime(age: int64, tolerance: int64) { -10 <= age <= tolerance || age == -LIMIT }

  /** For every header, body and clock: it is accepted if and only if it has both fields, its
      timestamp parses and is in time, and its signature, in capitals or not, is the hex of the MAC
      of that timestamp and the body. And which error each other header gets. */
  lemma VerdictExactly(
    mac: Mac, body: seq<byte>, header: string, secret: seq<byte>, tolerance: int64, now: int64, clock: int64)
    ensures var r := Verify(mac, body, header, secret, tolerance, now, clock);
            match StampOf(header)
            case None => r == if header == "" then Missing else InvalidFormat
            case Some(ts) =>
              var age := Minus(if now == 0 then clock else now, ts);
              var signed := ToLower(Field(header, "v1=").value) == Hex(mac(secret, Message(ts, body)));
              && (r == Ok <==> InTime(age, tolerance) && signed)
              && (r == Expired <==> age > tolerance)
              && (r == ClockDrift <==> age <= tolerance && age < -10 && age != -LIMIT)
              && (r == Mismatch <==> InTime(age, tolerance) && !signed)
  {
    EmptyHeaderHasNoField("t=");
    if StampOf(header).None? {
      Unstamped(mac, body, header, secret, tolerance, now, clock);
    } else {
      var time, ts := if now == 0 then clock else now, StampOf(header).value;
      InTimeExactly(time, ts, tolerance);
      WrapNegates(time as int - ts as int);
    }
  }

  // ---------- The round trip ----------

  predicate Solid(s: string) { s != "" && !IsSpace(s[0]) && !IsSpace(s[|s| - 1]) && ',' !in s }

  lemma SinglePart(s: string, name: string)
    requires Solid(s)
    ensures Field(s, name) == if HasPrefix(s, name) then Some(s[|name|..]) else None
  {
    SplitWithoutComma(s);
    assert TrimSpace(s) == s;
    assert LastField([s], 0, name) == None;
  }

  lemma TimestampIsSolid(ts: int64)
    ensures Solid("t=" + PrintInt(ts))
  {
    var p := PrintInt(ts);
    var s := "t=" + p;
    assert forall i :: 0 <= i < |p| ==> IsDigit(p[i]) || p[i] == '-' by {
      assert forall i :: 1 <= i < |p| ==> p[i] == p[1..][i - 1];
    }
    assert forall i :: 2 <= i < |s| ==> s[i] == p[i - 2];
    assert s[|s| - 1] == p[|p| - 1];
  }

  lemma DigestIsSolid(d: Digest)
    ensures Solid("v1=" + Hex(d))
  {
    var p := Hex(d);
    var s := "v1=" + p;
    assert forall i :: 3 <= i < |s| ==> s[i] == p[i - 3];
    assert s[|s| - 1] == p[|p| - 1];
  }

  lemma TwoParts(a: string, b: string, name: string)
    requires Solid(a) && Solid(b)
    ensures Field(a + "," + b, name)
            == if HasPrefix(b, name) then Some(b[|name|..])
               else if HasPrefix(a, name) then Some(a[|name|..]) else None
  {
    LaterFieldWins(a, b, name);
    SinglePart(a, name);
    SinglePart(b, name);
  }

  lemma NamedPart(name: string, value: string)
    ensures HasPrefix(name + value, name) && (name + value)[|name|..] == value
  {}

  lemma OtherPart(value: string)
    ensures !HasPrefix("v1=" + value, "t=")
  {
    assert ("v1=" + value)[..2][0] == 'v' && "t="[0] == 't';
  }

  lemma HeaderFields(header: string, a: string, b: string, t: string, v1: string)
    requires a == "t=" + t && b == "v1=" + v1 && header == a + "," + b && Solid(a) && Solid(b)
    ensures Field(header, "t=") == Some(t) && Field(header, "v1=") == Some(v1)
  {
    NamedPart("t=", t);
    NamedPart("v1=", v1);
    OtherPart(v1);
    TwoParts(a, b, "t=");
    TwoParts(a, b, "v1=");
  }

  lemma HeaderParts(t: string, v1: string)
    ensures "t=" + t + ",v1=" + v1 == ("t=" + t) + "," + ("v1=" + v1)
  {
    assert ",v1=" == "," + "v1=";
  }

  lemma Generated(mac: Mac, payload: seq<byte>, secret: seq<byte>, ts: int64)
    ensures var header := Generate(mac, payload, secret, ts);
            && header != ""
            && Field(header, "t=") == Some(PrintInt(ts))
            && Field(header, "v1=") == Some(Hex(mac(secret, Message(ts, payload))))
  {
    var t, v1 := PrintInt(ts), Hex(mac(secret, Message(ts, payload)));
    TimestampIsSolid(ts);
    DigestIsSolid(mac(secret, Message(ts, payload)));
    HeaderParts(t, v1);
    HeaderFields(Generate(mac, payload, secret, ts), "t=" + t, "v1=" + v1, t, v1);
  }

  lemma VerifyGenerated(
    mac: Mac, body: seq<byte>, secret: seq<byte>, ts: int64, tolerance: int64, now: int64)
    ensures VerifyFields(mac, body, PrintInt(ts), Hex(mac(secret, Message(ts, body))), secret, tolerance, now)
            == if Minus(now, ts) > tolerance then Expired else if Minus(ts, now) > 10 then ClockDrift else Ok
  {
    ParsePrinted(ts);
    HexIsLower(Hex(mac(secret, Message(ts, body))));
  }

  lemma GeneratedVerdict(
    mac: Mac, body: seq<byte>, secret: seq<byte>, ts: int64, tolerance: int64, now: int64, clock: int64)
    ensures var time := if now == 0 then clock else now;
            Verify(mac, body, Generate(mac, body, secret, ts), secret, tolerance, now, clock)
            == if Minus(time, ts) > tolerance then Expired else if Minus(ts, time) > 10 then ClockDrift else Ok
  {
    Generated(mac, body, secret, ts);
    VerifyGenerated(mac, body, secret, ts, tolerance, if now == 0 then clock else now);
  }

  lemma InTimeExactly(now: int64, ts: int64, tolerance: int64)
    ensures Minus(now, ts) <= tolerance && Minus(ts, now) <= 10
            <==> -10 <= Minus(now, ts) <= tolerance || Minus(now, ts) == -LIMIT
  {
    WrapNegates(now as int - ts as int);
  }

  /** A generated header, checked with the same secret and body, is accepted exactly when its
      age, as 64-bit arithmetic computes it, lies between -10 and the tolerance, or is the one
      number that is its own negation. */
  lemma RoundTrip(
    mac: Mac, body: seq<byte>, secret: seq<byte>, ts: int64, tolerance: int64, now: int64, clock: int64)
    ensures var age := Minus(if now == 0 then clock else now, ts);
            Verify(mac, body, Generate(mac, body, secret, ts), secret, tolerance, now, clock) == Ok
            <==> -10 <= age <= tolerance || age == -LIMIT
  {
    GeneratedVerdict(mac, body, secret, ts, tolerance, now, clock);
    InTimeExactly(if now == 0 then clock else now, ts, tolerance);
  }

  lemma AgeOnRealClocks(now: int64, ts: int64, tolerance: int64)
    requires 0 < now < 0x4000_0000_0000_0000
    ensures (-10 <= Minus(now, ts) <= tolerance || Minus(now, ts) == -LIMIT)
            <==> (-10 <= now as int - ts as int <= tolerance || now as int - ts as int == LIMIT)
  {}

  /** On clocks anybody will see: true ages from -10 to the tolerance, or exactly 2^63. */
  lemma RoundTripOnRealClocks(
    mac: Mac, body: seq<byte>, secret: seq<byte>, ts: int64, tolerance: int64, now: int64, clock: int64)
    requires 0 < now < 0x4000_0000_0000_0000
    ensures Verify(mac, body, Generate(mac, body, secret, ts), secret, tolerance, now, clock) == Ok
            <==> -10 <= now as int - ts as int <= tolerance || now as int - ts as int == 0x8000_0000_0000_0000
  {
    RoundTrip(mac, body, secret, ts, tolerance, now, clock);
    AgeOnRealClocks(now, ts, tolerance);
  }

  // ---------- What is signed determines what was meant ----------

  /** What is signed: the decimal timestamp, a dot, and the body. */
  lemma MessageExactly(ts: int64, body: seq<byte>)
    ensures var m, stamp := Message(ts, body), PrintInt(ts);
            && |m| == |stamp| + 1 + |body|
            && (forall i :: 0 <= i < |stamp| ==> m[i] as int == stamp[i] as int)
            && m[|stamp|] as int == '.' as int && m[|stamp| + 1..] == body
  {}

  /** Where a separator does not occur in the first part, it can only be cut one way. */
  lemma CutOnce(a: seq<byte>, x: seq<byte>, b: seq<byte>, y: seq<byte>, c: byte)
    requires a + [c] + x == b + [c] + y && c !in a && c !in b
    ensures a == b && x == y
  {
    var s, s' := a + [c] + x, b + [c] + y;
    assert s[|a|] == c && s'[|b|] == c;
    assert (forall i :: 0 <= i < |a| ==> s[i] == a[i]) && (forall i :: 0 <= i < |b| ==> s'[i] == b[i]);
    assert s[..|a|] == a && s'[..|b|] == b;
    assert s[|a| + 1..] == x && s'[|b| + 1..] == y;
  }

  lemma StampHasNoDot(ts: int64)
    ensures DOT !in Stamp(ts)
  {
    var p := PrintInt(ts);
    assert forall i :: 1 <= i < |p| ==> p[i] == p[1..][i - 1];
  }

  lemma StampInjective(ts: int64, ts': int64)
    requires Stamp(ts) == Stamp(ts')
    ensures ts == ts'
  {
    var p, p' := PrintInt(ts), PrintInt(ts');
    assert forall i :: 0 <= i < |p| ==> p[i] as int == Stamp(ts)[i] as int == p'[i] as int;
    assert p == p';
    ParsePrinted(ts);
    ParsePrinted(ts');
  }

  /** No two pairs of timestamp and body are signed alike. */
  lemma MessageInjective(ts: int64, body: seq<byte>, ts': int64, body': seq<byte>)
    requires Message(ts, body) == Message(ts', body')
    ensures ts == ts' && body == body'
  {
    StampHasNoDot(ts);
    StampHasNoDot(ts');
    CutOnce(Stamp(ts), body, Stamp(ts'), body', DOT);
    StampInjective(ts, ts');
  }

  /** So a header made for one body and accepted for another, under the same secret, shows a
      collision of the MAC: two different messages with one digest. */
  lemma AcceptedTamperingIsACollision(
    mac: Mac, body: seq<byte>, body': seq<byte>, secret: seq<byte>, ts: int64, tolerance: int64, now: int64,
    clock: int64)
    requires Verify(mac, body', Generate(mac, body, secret, ts), secret, tolerance, now, clock) == Ok && body != body'
    ensures mac(secret, Message(ts, body)) == mac(secret, Message(ts, body'))
    ensures Message(ts, body) != Message(ts, body')
  {
    Generated(mac, body, secret, ts);
    ParsePrinted(ts);
    HexIsLower(Hex(mac(secret, Message(ts, body))));
    HexInjective(mac(secret, Message(ts, body)), mac(secret, Message(ts, body')));
    if Message(ts, body) == Message(ts, body') { MessageInjective(ts, body, ts, body'); }
  }
}

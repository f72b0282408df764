/** The configuration appended to a downloaded agent: one writer (`agentcfg.Marshal`) and two independent
    readers, the backend's (given the tail of the file) and the agent's (reading the file at offsets). */
module ConfigTrailer {
  import opened Basics

  type Bytes = seq<Byte>

  datatype Config = Config(serverUrl: string, token: string, autostart: bool)

  /** The JSON library. */
  datatype Codec = Codec(encode: Config -> Bytes, decode: Bytes -> Option<Config>)

  /** An encoded object: no control character (section 7 of RFC 8259) and a closing brace at the end. */
  ghost predicate IsObjectText(body: Bytes) {
    body != [] && body[|body| - 1] == 0x7D && forall i :: 0 <= i < |body| ==> body[i] >= 0x20
  }

  ghost predicate Lawful(json: Codec) {
    forall c: Config :: IsObjectText(json.encode(c)) && json.decode(json.encode(c)) == Some(c)
  }

  const MAGIC: Bytes := [0x44, 0x52, 0x53, 0x43, 0x46, 0x47, 0x00, 0x01]

  const FOOTER_SIZE := 4 + |MAGIC|

  const MAX_SIZE := 65536

  datatype MarshalError = TooLarge(size: nat)

  datatype ReadError = NoConfig | Implausible(size: nat) | Corrupt | Incomplete

  // ----- The length field -----

  function LittleEndian32(n: nat): (b: Bytes)
    requires n < 0x1_0000_0000
    ensures |b| == 4
  {
    [n % 256, n / 0x100 % 256, n / 0x1_0000 % 256, n / 0x100_0000]
  }

  function FromLittleEndian32(b: Bytes): (n: nat)
    requires |b| == 4
  {
    b[0] as int + 0x100 * b[1] as int + 0x1_0000 * b[2] as int + 0x100_0000 * b[3] as int
  }

  /** The digits of a number, one at a time. */
  lemma ByteDigits(n: nat, q1: nat, q2: nat, q3: nat)
    requires q1 == n / 0x100 && q2 == q1 / 0x100 && q3 == q2 / 0x100
    ensures n / 0x1_0000 == q2 && n / 0x100_0000 == q3
    ensures n == n % 0x100 + 0x100 * (q1 % 0x100) + 0x1_0000 * (q2 % 0x100) + 0x100_0000 * q3
  {
    var d0, d1, d2 := n % 0x100, q1 % 0x100, q2 % 0x100;
    assert n == 0x100 * q1 + d0 && q1 == 0x100 * q2 + d1 && q2 == 0x100 * q3 + d2;
  }

  lemma LengthReadsBack(n: nat)
    requires n < 0x1_0000_0000
    ensures FromLittleEndian32(LittleEndian32(n)) == n
  {
    ByteDigits(n, n / 0x100, n / 0x100 / 0x100, n / 0x100 / 0x100 / 0x100);
  }

  lemma LengthIsUnique(b: Bytes)
    requires |b| == 4
    ensures LittleEndian32(FromLittleEndian32(b)) == b
  {
    var n := FromLittleEndian32(b);
    assert n / 0x100 == b[1] as int + 0x100 * b[2] as int + 0x1_0000 * b[3] as int;
    assert n / 0x1_0000 == b[2] as int + 0x100 * b[3] as int;
    assert n / 0x100_0000 == b[3];
  }

  // ----- The writer and the two readers -----

  function Trailer(body: Bytes): Bytes
    requires |body| <= MAX_SIZE
  {
    body + LittleEndian32(|body|) + MAGIC
  }

  function Marshal(json: Codec, c: Config): Result<Bytes, MarshalError> {
    var body := json.encode(c);
    if |body| > MAX_SIZE then Err(TooLarge(|body|)) else Ok(Trailer(body))
  }

  function Judged(c: Config): Result<Config, ReadError> {
    if c.serverUrl == "" || c.token == "" then Err(Incomplete) else Ok(c)
  }

  /** How a body that was found is judged: the same in both readers. */
  function Accept(json: Codec, body: Bytes): Result<Config, ReadError> {
    match json.decode(body)
    case None => Err(Corrupt)
    case Some(c) => Judged(c)
  }

  /** `agentcfg.Unmarshal`: `tail` is the end of the file, `total` the size of the whole of it. */
  function Unmarshal(json: Codec, tail: Bytes, total: nat): Result<Config, ReadError> {
    if |tail| < FOOTER_SIZE then Err(NoConfig) else
      var footer := tail[|tail| - FOOTER_SIZE..];
      if footer[4..] != MAGIC then Err(NoConfig) else
        var n := FromLittleEndian32(footer[..4]);
        if n <= 0 || n > MAX_SIZE || n + FOOTER_SIZE > total || n > |tail| - FOOTER_SIZE then Err(Implausible(n))
        else Accept(json, tail[|tail| - FOOTER_SIZE - n..|tail| - FOOTER_SIZE])
  }

  function TailSize(total: nat): nat {
    var max := MAX_SIZE + FOOTER_SIZE;
    if total < max then total else max
  }

  function BackendRead(json: Codec, file: Bytes): Result<Config, ReadError> {
    Unmarshal(json, file[|file| - TailSize(|file|)..], |file|)
  }

  /** `f.ReadAt` filling a buffer of `size` bytes. */
  function ReadAt(file: Bytes, offset: nat, size: nat): (b: Bytes)
    requires offset + size <= |file|
  {
    file[offset..offset + size]
  }

  /** `readEmbeddedFrom`. */
  function AgentRead(json: Codec, file: Bytes): Result<Config, ReadError> {
    var total := |file|;
    if total < FOOTER_SIZE then Err(NoConfig) else
      var footer := ReadAt(file, total - FOOTER_SIZE, FOOTER_SIZE);
      if footer[4..] != MAGIC then Err(NoConfig) else
        var n := FromLittleEndian32(footer[..4]);
        if n <= 0 || n > MAX_SIZE || n + FOOTER_SIZE > total then Err(Implausible(n))
        else Accept(json, ReadAt(file, total - FOOTER_SIZE - n, n))
  }

  // ----- What a file holds -----

  lemma SliceOfTail(file: Bytes, skip: nat, from: nat, to: nat)
    requires skip <= from <= to <= |file|
    ensures file[skip..][from - skip..to - skip] == file[from..to]
  {
  }

  /** On every file, configured, damaged or not, the two readers give the same answer. */
  lemma ReadersAgree(json: Codec, file: Bytes)
    ensures BackendRead(json, file) == AgentRead(json, file)
  {
    var skip := |file| - TailSize(|file|);
    var tail := file[skip..];
    if |file| >= FOOTER_SIZE {
      var footer := ReadAt(file, |file| - FOOTER_SIZE, FOOTER_SIZE);
      SliceOfTail(file, skip, |file| - FOOTER_SIZE, |file|);
      assert tail[|tail| - FOOTER_SIZE..] == footer;
      var n := FromLittleEndian32(footer[..4]);
      if 0 < n <= MAX_SIZE && n + FOOTER_SIZE <= |file| {
        SliceOfTail(file, skip, |file| - FOOTER_SIZE - n, |file| - FOOTER_SIZE);
      }
    }
  }

  /** The layout, as the format's documentation draws it. */
  ghost predicate Holds(file: Bytes, base: Bytes, body: Bytes) {
    0 < |body| <= MAX_SIZE && file == base + Trailer(body)
  }

  lemma HeldBodyIsRead(json: Codec, file: Bytes, base: Bytes, body: Bytes)
    requires Holds(file, base, body)
    ensures AgentRead(json, file) == Accept(json, body)
  {
    var total, n := |file|, |body|;
    LengthReadsBack(n);
    assert total == |base| + n + FOOTER_SIZE;
    var footer := ReadAt(file, total - FOOTER_SIZE, FOOTER_SIZE);
    assert footer == LittleEndian32(n) + MAGIC;
    assert footer[4..] == MAGIC && footer[..4] == LittleEndian32(n);
    assert ReadAt(file, total - FOOTER_SIZE - n, n) == body;
  }

  lemma WhatIsReadIsHeld(json: Codec, file: Bytes, c: Config) returns (base: Bytes, body: Bytes)
    requires AgentRead(json, file) == Ok(c)
    ensures Holds(file, base, body) && Accept(json, body) == Ok(c)
  {
    hide LittleEndian32, FromLittleEndian32, Holds, Accept;
    var total := |file|;
    var footer := ReadAt(file, total - FOOTER_SIZE, FOOTER_SIZE);
    var n := FromLittleEndian32(footer[..4]);
    var at := total - FOOTER_SIZE - n;
    assert file[at + n..] == footer;
    base, body := file[..at], ReadAt(file, at, n);
    LengthIsUnique(footer[..4]);
    SplitAtTrailer(file, at, n);
  }

  lemma SplitAtTrailer(file: Bytes, at: nat, n: nat)
    requires at + n + FOOTER_SIZE == |file| && 0 < n <= MAX_SIZE
    requires file[at + n..][..4] == LittleEndian32(n) && file[at + n..][4..] == MAGIC
    ensures Holds(file, file[..at], file[at..at + n])
  {
    var footer := file[at + n..];
    assert footer == footer[..4] + footer[4..];
    assert file == file[..at] + (file[at..at + n] + footer);
  }

  /** A configuration is read exactly from the files that hold it. */
  lemma ReadExactlyWhatIsHeld(json: Codec, file: Bytes, c: Config)
    ensures AgentRead(json, file) == Ok(c) <==>
      c.serverUrl != "" && c.token != "" &&
      exists base: Bytes, body: Bytes :: Holds(file, base, body) && json.decode(body) == Some(c)
  {
    hide AgentRead, Holds;
    if AgentRead(json, file) == Ok(c) {
      var base, body := WhatIsReadIsHeld(json, file, c);
    }
    forall base: Bytes, body: Bytes | Holds(file, base, body)
      ensures AgentRead(json, file) == Accept(json, body)
    {
      HeldBodyIsRead(json, file, base, body);
    }
  }

  // ----- Which error -----

  /** The file ends in a footer: a length and the magic. */
  ghost predicate EndsInFooter(file: Bytes, n: nat) {
    n < 0x1_0000_0000 && exists base: Bytes :: file == base + LittleEndian32(n) + MAGIC
  }

  lemma FooterIsRead(file: Bytes, n: nat)
    requires EndsInFooter(file, n)
    ensures |file| >= FOOTER_SIZE && file[|file| - FOOTER_SIZE..][4..] == MAGIC
    ensures FromLittleEndian32(file[|file| - FOOTER_SIZE..][..4]) == n
  {
    var base: Bytes :| file == base + LittleEndian32(n) + MAGIC;
    var footer := file[|file| - FOOTER_SIZE..];
    assert footer == LittleEndian32(n) + MAGIC;
    assert footer[4..] == MAGIC && footer[..4] == LittleEndian32(n);
    LengthReadsBack(n);
  }

  lemma ReadIsFooter(file: Bytes) returns (n: nat)
    requires |file| >= FOOTER_SIZE && file[|file| - FOOTER_SIZE..][4..] == MAGIC
    ensures EndsInFooter(file, n) && n == FromLittleEndian32(file[|file| - FOOTER_SIZE..][..4])
  {
    hide LittleEndian32, FromLittleEndian32;
    var at := |file| - FOOTER_SIZE;
    var footer := file[at..];
    n := FromLittleEndian32(footer[..4]);
    LengthIsBelow(footer[..4]);
    LengthIsUnique(footer[..4]);
    assert footer == footer[..4] + footer[4..];
    assert file == file[..at] + LittleEndian32(n) + MAGIC;
  }

  lemma LengthIsBelow(b: Bytes)
    requires |b| == 4
    ensures FromLittleEndian32(b) < 0x1_0000_0000
  {
  }

  /** The body in front of a plausible length is the one that is judged. */
  lemma PlausibleIsHeld(json: Codec, file: Bytes, n: nat) returns (base: Bytes, body: Bytes)
    requires EndsInFooter(file, n) && 0 < n <= MAX_SIZE && n + FOOTER_SIZE <= |file|
    ensures Holds(file, base, body) && |body| == n && AgentRead(json, file) == Accept(json, body)
  {
    hide LittleEndian32, FromLittleEndian32, Accept;
    FooterIsRead(file, n);
    var at := |file| - FOOTER_SIZE - n;
    base, body := file[..at], file[at..at + n];
    LengthIsUnique(file[at + n..][..4]);
    SplitAtTrailer(file, at, n);
    HeldBodyIsRead(json, file, base, body);
  }

  lemma HeldIsPlausible(file: Bytes, base: Bytes, body: Bytes)
    requires Holds(file, base, body)
    ensures EndsInFooter(file, |body|) && |body| + FOOTER_SIZE <= |file|
  {
    assert file == (base + body) + LittleEndian32(|body|) + MAGIC;
  }

  /** Why a file is refused, for every file: it has no footer; its footer's length does not fit; it holds a body that
      does not decode; or one that decodes to a configuration without URL or token. */
  lemma RefusedExactlyFor(json: Codec, file: Bytes)
    ensures AgentRead(json, file) == Err(NoConfig) <==>
              |file| < 12 || file[|file| - 8..] != ['D' as int, 'R' as int, 'S' as int, 'C' as int, 'F' as int, 'G' as int, 0, 1]
    ensures forall n: nat :: AgentRead(json, file) == Err(Implausible(n)) <==>
              EndsInFooter(file, n) && (n == 0 || n > 64 * 1024 || n + 12 > |file|)
    ensures AgentRead(json, file) == Err(Corrupt) <==>
              exists base: Bytes, body: Bytes :: Holds(file, base, body) && json.decode(body) == None
    ensures AgentRead(json, file) == Err(Incomplete) <==>
              exists base: Bytes, body: Bytes, c: Config ::
                Holds(file, base, body) && json.decode(body) == Some(c) && (c.serverUrl == "" || c.token == "")
  {
    hide LittleEndian32, FromLittleEndian32, Holds;
    assert FOOTER_SIZE == 12 && MAX_SIZE == 64 * 1024;
    forall base: Bytes, body: Bytes | Holds(file, base, body)
      ensures AgentRead(json, file) == Accept(json, body) && EndsInFooter(file, |body|)
    {
      HeldBodyIsRead(json, file, base, body);
      HeldIsPlausible(file, base, body);
    }
    forall n: nat | EndsInFooter(file, n)
      ensures |file| >= FOOTER_SIZE && file[|file| - FOOTER_SIZE..][4..] == MAGIC &&
              FromLittleEndian32(file[|file| - FOOTER_SIZE..][..4]) == n
    {
      FooterIsRead(file, n);
    }
    if |file| >= FOOTER_SIZE {
      assert file[|file| - FOOTER_SIZE..][4..] == file[|file| - 8..];
      assert ReadAt(file, |file| - FOOTER_SIZE, FOOTER_SIZE) == file[|file| - FOOTER_SIZE..];
      if file[|file| - FOOTER_SIZE..][4..] == MAGIC {
        var n := ReadIsFooter(file);
        if 0 < n <= MAX_SIZE && n + FOOTER_SIZE <= |file| {
          var base, body := PlausibleIsHeld(json, file, n);
          if json.decode(body).Some? {
            assert Holds(file, base, body) && json.decode(body) == Some(json.decode(body).value);
          }
        }
      }
    }
  }

  // ----- Main results -----

  /** Whatever it is appended to, a trailer is written exactly when its text is within the limit, and then
      read back by both readers exactly when the URL and the token are there; the base, even one that
      already carries a trailer, is not looked at. */
  lemma RoundTrip(json: Codec, base: Bytes, c: Config)
    requires Lawful(json)
    ensures Marshal(json, c).Ok? <==> |json.encode(c)| <= 64 * 1024
    ensures Marshal(json, c).Err? ==> Marshal(json, c).error == TooLarge(|json.encode(c)|)
    ensures Marshal(json, c).Ok? ==> AgentRead(json, base + Marshal(json, c).value) == Judged(c)
    ensures Marshal(json, c).Ok? ==> BackendRead(json, base + Marshal(json, c).value) == Judged(c)
  {
    var body := json.encode(c);
    assert IsObjectText(body) && json.decode(body) == Some(c);
    if |body| <= MAX_SIZE {
      var file := base + Trailer(body);
      assert Holds(file, base, body);
      HeldBodyIsRead(json, file, base, body);
      ReadersAgree(json, file);
    }
  }

  /** No proper prefix of a trailer ends in the magic's last byte: that byte occurs only there and, at most,
      among the length bytes, which follow the closing brace. */
  lemma PrefixLacksMagic(base: Bytes, body: Bytes, k: nat)
    requires IsObjectText(body) && |body| <= MAX_SIZE
    requires 0 < k < |Trailer(body)|
    ensures var file := base + Trailer(body)[..k];
            |file| >= FOOTER_SIZE ==> file[|file| - |MAGIC|..] != MAGIC
  {
    var t := Trailer(body);
    var file := base + t[..k];
    var last := file[|file| - 1];
    assert last == t[k - 1];
    if |file| >= FOOTER_SIZE {
      var suffix := file[|file| - |MAGIC|..];
      assert suffix[7] == last;
      if |body| < k <= |body| + 4 {
        var r := k - |body|;
        assert suffix[7 - r] == file[|file| - 1 - r] == t[|body| - 1] == 0x7D;
      } else if k > |body| + 4 {
        assert last == MAGIC[k - |body| - 5];
      } else {
        assert last == body[k - 1];
      }
    }
  }

  /** A download cut off anywhere inside the trailer leaves a file that both readers call unconfigured:
      never a configuration, and never an error either. */
  lemma TruncationIsUnconfigured(json: Codec, base: Bytes, c: Config, k: nat)
    requires Lawful(json) && Marshal(json, c).Ok? && 0 < k < |Marshal(json, c).value|
    ensures AgentRead(json, base + Marshal(json, c).value[..k]) == Err(NoConfig)
    ensures BackendRead(json, base + Marshal(json, c).value[..k]) == Err(NoConfig)
  {
    var body := json.encode(c);
    assert IsObjectText(body);
    var file := base + Trailer(body)[..k];
    PrefixLacksMagic(base, body, k);
    if |file| >= FOOTER_SIZE {
      assert ReadAt(file, |file| - FOOTER_SIZE, FOOTER_SIZE)[4..] == file[|file| - |MAGIC|..];
    }
    ReadersAgree(json, file);
  }

  /** Cutting the trailer off altogether, by contrast, leaves what the base says: a base that was itself a
      configured download is still configured. */
  lemma LastTrailerWins(json: Codec, base: Bytes, first: Config, second: Config)
    requires Lawful(json) && Marshal(json, first).Ok? && Marshal(json, second).Ok?
    requires first.serverUrl != "" && first.token != "" && second.serverUrl != "" && second.token != ""
    ensures var once := base + Marshal(json, first).value;
            && AgentRead(json, once) == Ok(first)
            && AgentRead(json, once + Marshal(json, second).value) == Ok(second)
  {
    RoundTrip(json, base, first);
    RoundTrip(json, base + Marshal(json, first).value, second);
  }

  // ----- The laws asked of the codec can be met -----

  function Unary(n: nat): (b: Bytes)
    ensures |b| == n && forall i :: 0 <= i < n ==> b[i] == 0x30
  {
    seq(n, i requires 0 <= i < n => 0x30)
  }

  function Digits(ns: seq<nat>): (b: Bytes)
    ensures b != [] && b[|b| - 1] == 0x7D && forall i :: 0 <= i < |b| ==> b[i] >= 0x20
  {
    if ns == [] then [0x7D] else Unary(ns[0]) + [0x2C] + Digits(ns[1..])
  }

  lemma FirstNumber(ns: seq<nat>)
    requires ns != []
    ensures var d := Digits(ns);
            && |d| > ns[0] && d[ns[0]] == 0x2C && d[ns[0] + 1..] == Digits(ns[1..])
            && forall i :: 0 <= i < ns[0] ==> d[i] == 0x30
  {
  }

  lemma {:induction false} DigitsAreDistinct(a: seq<nat>, b: seq<nat>)
    requires Digits(a) == Digits(b)
    ensures a == b
  {
    if a != [] { FirstNumber(a); }
    if b != [] { FirstNumber(b); }
    if a != [] && b != [] {
      assert a[0] == b[0];
      DigitsAreDistinct(a[1..], b[1..]);
      assert a == [a[0]] + a[1..] && b == [b[0]] + b[1..];
    }
  }

  function Codes(s: string): (ns: seq<nat>)
    ensures |ns| == |s| && forall i :: 0 <= i < |s| ==> ns[i] == s[i] as int
  {
    seq(|s|, i requires 0 <= i < |s| => s[i] as int)
  }

  function Numbers(c: Config): seq<nat> {
    [if c.autostart then 1 else 0, |c.serverUrl|] + Codes(c.serverUrl) + Codes(c.token)
  }

  lemma NumbersAreDistinct(c: Config, d: Config)
    requires Numbers(c) == Numbers(d)
    ensures c == d
  {
    var n := |c.serverUrl|;
    assert Numbers(c)[0] == Numbers(d)[0] && n == Numbers(c)[1] == Numbers(d)[1] == |d.serverUrl|;
    assert Codes(c.serverUrl) == Numbers(c)[2..n + 2] == Codes(d.serverUrl);
    assert Codes(c.token) == Numbers(c)[n + 2..] == Codes(d.token);
    assert forall i :: 0 <= i < n ==> Codes(c.serverUrl)[i] == Codes(d.serverUrl)[i];
    assert forall i :: 0 <= i < |c.token| ==> Codes(c.token)[i] == Codes(d.token)[i];
  }

  ghost function Decoded(b: Bytes): Option<Config> {
    if exists c: Config :: Digits(Numbers(c)) == b then
      var c: Config :| Digits(Numbers(c)) == b;
      Some(c)
    else None
  }

  lemma LawfulCodecExists()
    ensures exists json: Codec :: Lawful(json)
  {
    var json := Codec((c: Config) => Digits(Numbers(c)), Decoded);
    forall c: Config ensures IsObjectText(json.encode(c)) && json.decode(json.encode(c)) == Some(c) {
      var d := Decoded(Digits(Numbers(c))).value;
      DigitsAreDistinct(Numbers(d), Numbers(c));
      NumbersAreDistinct(d, c);
    }
    assert Lawful(json);
  }
}

/** The string and header logic of the plain-HTTP client: URL validation and
    split, the headers sent with a request, parsing of the received header
    lines, decoding of a chunked body (section 7.1 of RFC 9112), the final
    result code, and the numeric-address shortcut of the DNS resolver.
    Sockets, timeouts and threads are not modelled. */
module NetUtils {

  datatype HttpErrorCode = Ok | BadURL | CouldntConnect | OtherHTTPError

  datatype Option<T> = None | Some(value: T)

  /** Either a value or the error code the request returns. */
  datatype Outcome<T> = Success(value: T) | Failure(code: HttpErrorCode)

  type Byte = b: int | 0 <= b < 256

  const CR: Byte := 13
  const LF: Byte := 10

  // ---------------------------------------------------------------------
  // URL validation and split
  // ---------------------------------------------------------------------

  const Prefix: string := "http://"

  /** The index of the first `c` in `s`, if any. */
  function FindChar(s: string, c: char): (r: Option<nat>)
    ensures r.None? <==> c !in s
    ensures r.Some? ==> r.value < |s| && s[r.value] == c && c !in s[..r.value]
  {
    if |s| == 0 then None
    else if s[0] == c then Some(0)
    else match FindChar(s[1..], c)
      case None => None
      case Some(p) =>
        assert s[1..][..p] == s[1..p + 1];
        Some(p + 1)
  }

  /** A URL must start with `http://`; the server is what follows, up to the
      first `/`, and the requested object is the rest from that `/` on, or `/`
      when there is none. A `/` right after the prefix leaves no server name
      and is a bad URL. */
  function SplitUrl(url: string): (r: Outcome<(string, string)>)
    ensures !(|url| >= 7 && url[..7] == Prefix) ==> r == Failure(BadURL)
    ensures r.Failure? ==> r.code == BadURL
  {
    if !(|url| >= 7 && url[..7] == Prefix) then Failure(BadURL)
    else
      var rest := url[7..];
      match FindChar(rest, '/')
      case None => Success((rest, "/"))
      case Some(pos) =>
        if pos == 0 then Failure(BadURL)
        else Success((rest[..pos], rest[pos..]))
  }

  /** The split is lossless: the prefix, the server and the object give the
      URL back (with the object `/` standing for a URL that has no path), the
      server holds no `/`, and the object starts with one. */
  lemma SplitUrlRoundTrip(url: string)
    requires SplitUrl(url).Success?
    ensures var (server, path) := SplitUrl(url).value;
      '/' !in server && |path| > 0 && path[0] == '/' &&
      (url == Prefix + server + path || (path == "/" && url == Prefix + server))
  {
    var rest := url[7..];
    assert url == Prefix + rest;
    match FindChar(rest, '/')
    case None =>
    case Some(pos) =>
      assert rest == rest[..pos] + rest[pos..];
  }

  /** Bad URLs: exactly those without the prefix and those with `/` right after it. */
  lemma SplitUrlBadIff(url: string)
    ensures SplitUrl(url).Failure? <==>
      !(|url| >= 7 && url[..7] == Prefix) || (|url| > 7 && url[7] == '/')
  {
    if |url| >= 7 && url[..7] == Prefix && |url| > 7 {
      assert url[7..][0] == url[7];
    }
  }

  /** The server name is empty only for the bare prefix `http://`. */
  lemma EmptyServerOnlyForBarePrefix(url: string)
    requires SplitUrl(url).Success?
    ensures SplitUrl(url).value.0 == "" <==> url == Prefix
  {
    assert url == Prefix + url[7..];
  }

  // ---------------------------------------------------------------------
  // Outgoing headers
  // ---------------------------------------------------------------------

  /** The decimal digits of `n` (`%u`). */
  function Decimal(n: nat): (s: string)
    ensures |s| > 0 && forall i :: 0 <= i < |s| ==> '0' <= s[i] <= '9'
  {
    if n < 10 then [DigitChar(n)] else Decimal(n / 10) + [DigitChar(n % 10)]
  }

  function DigitChar(d: nat): (c: char)
    requires d < 10
    ensures '0' <= c <= '9'
  {
    match d
    case 0 => '0' case 1 => '1' case 2 => '2' case 3 => '3' case 4 => '4'
    case 5 => '5' case 6 => '6' case 7 => '7' case 8 => '8' case _ => '9'
  }

  function DigitValue(c: char): (d: nat)
    requires '0' <= c <= '9'
    ensures d < 10
  {
    (c as int - '0' as int) as nat
  }

  /** The value of a string of decimal digits. */
  function DecimalValue(s: string): nat
    requires forall i :: 0 <= i < |s| ==> '0' <= s[i] <= '9'
  {
    if |s| == 0 then 0 else DecimalValue(s[..|s| - 1]) * 10 + DigitValue(s[|s| - 1])
  }

  /** Reading the printed length back gives the length. */
  lemma {:induction false} DecimalRoundTrip(n: nat)
    ensures DecimalValue(Decimal(n)) == n
  {
    if n >= 10 {
      var s := Decimal(n);
      assert s[..|s| - 1] == Decimal(n / 10);
      DecimalRoundTrip(n / 10);
    }
  }

  /** The headers sent with a request: the caller's extra headers, then
      `Connection: close`, a `User-Agent` unless one was given, Basic
      authorization (section 2 of RFC 7617) when a user name is given, and
      the body length when there is a body and no length was given. Base64
      encoding is a parameter. */
  function HeadersToSend(extra: map<string, string>, user: string, pass: string, bodyLength: nat,
                         base64: string -> string): (h: map<string, string>)
    ensures "Connection" in h && h["Connection"] == "close"
    ensures "User-Agent" in h
    ensures h["User-Agent"] == if "User-Agent" in extra then extra["User-Agent"] else "MRPT Library"
    ensures user != "" ==> "Authorization" in h && h["Authorization"] == "Basic " + base64(user + ":" + pass)
    ensures user == "" ==> ("Authorization" in h <==> "Authorization" in extra)
    ensures bodyLength > 0 && "Content-Length" !in extra ==>
      "Content-Length" in h && h["Content-Length"] == Decimal(bodyLength % 0x1_0000_0000)
    ensures !(bodyLength > 0 && "Content-Length" !in extra) ==> ("Content-Length" in h <==> "Content-Length" in extra)
    ensures forall k :: k in extra && k != "Connection" && k != "Authorization" ==> k in h && h[k] == extra[k]
    ensures user == "" && "Authorization" in extra ==> h["Authorization"] == extra["Authorization"]
    ensures forall k :: k in h ==> k in extra || k in {"Connection", "User-Agent", "Authorization", "Content-Length"}
  {
    var h1 := extra["Connection" := "close"];
    var h2 := if "User-Agent" in h1 then h1 else h1["User-Agent" := "MRPT Library"];
    var h3 := if user != "" then h2["Authorization" := "Basic " + base64(user + ":" + pass)] else h2;
    if bodyLength > 0 && "Content-Length" !in h3 then h3["Content-Length" := Decimal(bodyLength % 0x1_0000_0000)]
    else h3
  }

  // ---------------------------------------------------------------------
  // Received header lines
  // ---------------------------------------------------------------------

  /** The key and value of one header line with its first `:` at `p`: the
      key is the text before it, the value the text from two characters after
      it. A `:` in last position leaves no room for that and is an error. */
  function LineKeyValue(line: string, p: nat): (r: Option<(string, string)>)
    requires p < |line|
    ensures r.Some? <==> p + 2 <= |line|
    ensures r.Some? ==> |r.value.0| == p && r.value.0 + line[p..p + 2] + r.value.1 == line
  {
    if p + 2 > |line| then None else Some((line[..p], line[p + 2..]))
  }

  /** The received headers from the header lines, as a map that later lines
      overwrite; lines without `:` are skipped. A line whose first `:` is its
      last character makes the request fail with `CouldntConnect`. */
  function HeaderMap(lines: seq<string>): Outcome<map<string, string>>
  {
    if |lines| == 0 then Success(map[])
    else
      match HeaderMap(lines[..|lines| - 1])
      case Failure(c) => Failure(c)
      case Success(m) =>
        var line := lines[|lines| - 1];
        match FindChar(line, ':')
        case None => Success(m)
        case Some(p) =>
          match LineKeyValue(line, p)
          case None => Failure(CouldntConnect)
          case Some(kv) => Success(m[kv.0 := kv.1])
  }

  /** Parses the header lines into `rx_headers`, one line at a time. */
  method ParseHeaderLines(lines: seq<string>) returns (r: Outcome<map<string, string>>)
    ensures r == HeaderMap(lines)
  {
    var rxHeaders: map<string, string> := map[];
    var i := 0;
    while i < |lines|
      invariant 0 <= i <= |lines|
      invariant HeaderMap(lines[..i]) == Success(rxHeaders)
    {
      assert lines[..i + 1][..i] == lines[..i];
      var p := FindChar(lines[i], ':');
      if p.Some? {
        if p.value + 2 > |lines[i]| {
          HeaderMapFailureSticks(lines, i + 1);
          return Failure(CouldntConnect);
        }
        rxHeaders := rxHeaders[lines[i][..p.value] := lines[i][p.value + 2..]];
      }
      i := i + 1;
    }
    assert lines[..|lines|] == lines;
    r := Success(rxHeaders);
  }

  /** Once a prefix of the lines fails, all of them fail the same way. */
  lemma {:induction false} HeaderMapFailureSticks(lines: seq<string>, i: nat)
    requires i <= |lines| && HeaderMap(lines[..i]).Failure?
    ensures HeaderMap(lines) == Failure(CouldntConnect)
    decreases |lines| - i
  {
    if i == |lines| {
      assert lines[..i] == lines;
      HeaderMapFailureIsCouldntConnect(lines);
    } else {
      assert lines[..i + 1][..i] == lines[..i];
      HeaderMapFailureSticks(lines, i + 1);
    }
  }

  lemma {:induction false} HeaderMapFailureIsCouldntConnect(lines: seq<string>)
    requires HeaderMap(lines).Failure?
    ensures HeaderMap(lines).code == CouldntConnect
  {
    if |lines| > 0 && HeaderMap(lines[..|lines| - 1]).Failure? {
      HeaderMapFailureIsCouldntConnect(lines[..|lines| - 1]);
    }
  }

  /** Whether a line has a `:` and its first one is its last character. */
  predicate ColonAtEnd(line: string)
  {
    FindChar(line, ':').Some? && FindChar(line, ':').value + 1 == |line|
  }

  /** The lines fail exactly when one of them has its first `:` at its end. */
  lemma {:induction false} HeaderMapFailsIff(lines: seq<string>)
    ensures HeaderMap(lines).Failure? <==> exists i :: 0 <= i < |lines| && ColonAtEnd(lines[i])
  {
    if |lines| > 0 {
      var init := lines[..|lines| - 1];
      HeaderMapFailsIff(init);
      assert forall i :: 0 <= i < |init| ==> init[i] == lines[i];
    }
  }

  /** Key of a line that has a `:`. */
  predicate HasKey(line: string, key: string)
  {
    FindChar(line, ':').Some? && line[..FindChar(line, ':').value] == key
  }

  /** A later line overwrites an earlier one: the value stored for a key is
      the one of the last line with that key, and a key no line has is absent. */
  lemma HeaderMapLastWins(lines: seq<string>, key: string)
    requires HeaderMap(lines).Success?
    ensures key in HeaderMap(lines).value <==> exists i :: 0 <= i < |lines| && HasKey(lines[i], key)
    ensures key in HeaderMap(lines).value ==> exists i :: LastLineWith(lines, key, i, HeaderMap(lines).value[key])
  {
    HeaderMapHasKey(lines, key);
    HeaderMapLastValue(lines, key);
  }

  /** A key is stored exactly when some line has it. */
  lemma {:induction false} HeaderMapHasKey(lines: seq<string>, key: string)
    requires HeaderMap(lines).Success?
    ensures key in HeaderMap(lines).value <==> exists i :: 0 <= i < |lines| && HasKey(lines[i], key)
  {
    if |lines| > 0 {
      var init := lines[..|lines| - 1];
      HeaderMapStep(lines, key);
      HeaderMapHasKey(init, key);
      if HasKey(lines[|lines| - 1], key) {
      } else if exists i :: 0 <= i < |lines| && HasKey(lines[i], key) {
        var i :| 0 <= i < |lines| && HasKey(lines[i], key);
        assert i < |init| && init[i] == lines[i];
      } else {
        assert forall i :: 0 <= i < |init| ==> init[i] == lines[i];
      }
    }
  }

  /** Line `i` is the last line with `key`, and `v` is its value. */
  predicate LastLineWith(lines: seq<string>, key: string, i: int, v: string)
  {
    && 0 <= i < |lines| && HasKey(lines[i], key)
    && (forall j :: i < j < |lines| ==> !HasKey(lines[j], key))
    && FindChar(lines[i], ':').value + 2 <= |lines[i]|
    && v == lines[i][FindChar(lines[i], ':').value + 2..]
  }

  /** The value stored for a key is the one of the last line with it. */
  lemma {:induction false} HeaderMapLastValue(lines: seq<string>, key: string)
    requires HeaderMap(lines).Success?
    ensures key in HeaderMap(lines).value ==> exists i :: LastLineWith(lines, key, i, HeaderMap(lines).value[key])
  {
    if |lines| > 0 && key in HeaderMap(lines).value {
      var init := lines[..|lines| - 1];
      HeaderMapStep(lines, key);
      if HasKey(lines[|lines| - 1], key) {
        assert LastLineWith(lines, key, |lines| - 1, HeaderMap(lines).value[key]);
      } else {
        HeaderMapLastValue(init, key);
        var i :| LastLineWith(init, key, i, HeaderMap(init).value[key]);
        LastLineKept(lines, key, i, HeaderMap(init).value[key]);
      }
    }
  }

  /** A line without `key` appended after the last line with it keeps that
      line the last one. */
  lemma LastLineKept(lines: seq<string>, key: string, i: int, v: string)
    requires |lines| > 0 && !HasKey(lines[|lines| - 1], key)
    requires LastLineWith(lines[..|lines| - 1], key, i, v)
    ensures LastLineWith(lines, key, i, v)
  {
    var init := lines[..|lines| - 1];
    assert lines[i] == init[i];
    forall j | i < j < |lines|
      ensures !HasKey(lines[j], key)
    {
      if j < |init| {
        assert lines[j] == init[j];
      }
    }
  }

  /** One more line: it sets `key` when it has that key, and leaves it as it
      was otherwise. */
  lemma HeaderMapStep(lines: seq<string>, key: string)
    requires |lines| > 0 && HeaderMap(lines).Success?
    ensures HeaderMap(lines[..|lines| - 1]).Success?
    ensures var last := lines[|lines| - 1];
      HasKey(last, key) ==>
        (FindChar(last, ':').value + 2 <= |last|
         && key in HeaderMap(lines).value && HeaderMap(lines).value[key] == last[FindChar(last, ':').value + 2..])
    ensures var last := lines[|lines| - 1];
      !HasKey(last, key) ==>
        ((key in HeaderMap(lines).value <==> key in HeaderMap(lines[..|lines| - 1]).value)
         && (key in HeaderMap(lines).value ==> HeaderMap(lines).value[key] == HeaderMap(lines[..|lines| - 1]).value[key]))
  {
  }

  // ---------------------------------------------------------------------
  // Chunked transfer decoding
  // ---------------------------------------------------------------------

  /** The first CRLF at or after `from`, searched as `strstr` does: the
      search stops at a zero byte, and the end of the buffer counts as one
      (the receive buffer always ends in zero bytes). */
  function FindCRLF(buf: seq<Byte>, from: nat): (r: Option<nat>)
    ensures r.Some? ==> from <= r.value && r.value + 1 < |buf| && buf[r.value] == CR && buf[r.value + 1] == LF
    ensures r.Some? ==> forall k :: from <= k < r.value ==> buf[k] != 0
    decreases |buf| - from
  {
    if from + 1 >= |buf| || buf[from] == 0 then None
    else if buf[from] == CR && buf[from + 1] == LF then Some(from)
    else FindCRLF(buf, from + 1)
  }

  /** FindCRLF finds a CRLF that only non-zero, non-CR bytes precede. */
  lemma {:induction false} FindCRLFAt(buf: seq<Byte>, from: nat, p: nat)
    requires from <= p && p + 1 < |buf| && buf[p] == CR && buf[p + 1] == LF
    requires forall k :: from <= k < p ==> buf[k] != 0 && buf[k] != CR
    ensures FindCRLF(buf, from) == Some(p)
    decreases p - from
  {
    if from < p {
      FindCRLFAt(buf, from + 1, p);
    }
  }

  predicate IsHexDigit(b: Byte)
  {
    48 <= b <= 57 || 65 <= b <= 70 || 97 <= b <= 102
  }

  function HexDigitValue(b: Byte): (d: nat)
    requires IsHexDigit(b)
    ensures d < 16
  {
    if b <= 57 then b - 48 else if b <= 70 then b - 55 else b - 87
  }

  /** The length of the longest prefix of hex digits. */
  function HexPrefixLength(s: seq<Byte>): (n: nat)
    ensures n <= |s|
    ensures forall i :: 0 <= i < n ==> IsHexDigit(s[i])
    ensures n < |s| ==> !IsHexDigit(s[n])
  {
    if |s| == 0 || !IsHexDigit(s[0]) then 0 else 1 + HexPrefixLength(s[1..])
  }

  /** The value of a string of hex digits. */
  function HexValue(s: seq<Byte>): nat
    requires forall i :: 0 <= i < |s| ==> IsHexDigit(s[i])
  {
    if |s| == 0 then 0 else HexValue(s[..|s| - 1]) * 16 + HexDigitValue(s[|s| - 1])
  }

  /** `sscanf("0x" + line, "%x")` into an unsigned int: the `0x` prefix is
      consumed, then the longest run of hex digits (none at all reads as 0,
      since the leading `0` already counts); the value is converted through
      an unsigned long (saturating at 2^64 - 1) and cut to 32 bits. The scan
      never reports zero fields. */
  function ChunkLength(line: seq<Byte>): (n: nat)
    ensures n < 0x1_0000_0000
  {
    var v := HexValue(line[..HexPrefixLength(line)]);
    if v >= 0x1_0000_0000_0000_0000 then 0xFFFF_FFFF else v % 0x1_0000_0000
  }

  /** The loop of the chunked decoder from position `index` of `buf`: a bare
      CRLF at `index` is removed; otherwise the line up to the next CRLF is a
      chunk size, the line is removed and `index` skips that many bytes; a
      zero size cuts the buffer at `index`; with no CRLF left, decoding
      stops and the buffer is kept as it is. */
  function DecodeFrom(buf: seq<Byte>, index: nat): seq<Byte>
    decreases |buf|
  {
    if index >= |buf| then buf
    else if buf[index] == CR && index + 1 < |buf| && buf[index + 1] == LF then
      DecodeFrom(buf[..index] + buf[index + 2..], index)
    else
      match FindCRLF(buf, index)
      case None => buf
      case Some(p) =>
        var len := ChunkLength(buf[index..p]);
        var rest := buf[..index] + buf[p + 2..];
        if len == 0 then rest[..index] else DecodeFrom(rest, index + len)
  }

  /** The chunked decoder, in place on `buf`. */
  method DecodeChunked(input: seq<Byte>) returns (buf: seq<Byte>)
    ensures buf == DecodeFrom(input, 0)
  {
    buf := input;
    var index: nat := 0;
    while index < |buf|
      invariant DecodeFrom(buf, index) == DecodeFrom(input, 0)
      decreases |buf|
    {
      if buf[index] == CR && index + 1 < |buf| && buf[index + 1] == LF {
        buf := buf[..index] + buf[index + 2..];
        continue;
      }
      var pCRLF := FindCRLF(buf, index);
      if pCRLF.None? {
        break;
      }
      var p := pCRLF.value;
      var lenChunk := ChunkLength(buf[index..p]);
      buf := buf[..index] + buf[p + 2..];
      index := index + lenChunk;
      if lenChunk == 0 {
        buf := buf[..index];
        break;
      }
    }
  }

  /** Decoding never makes the body longer. */
  lemma {:induction false} DecodeNotLonger(buf: seq<Byte>, index: nat)
    ensures |DecodeFrom(buf, index)| <= |buf|
    decreases |buf|
  {
    if index < |buf| {
      if buf[index] == CR && index + 1 < |buf| && buf[index + 1] == LF {
        DecodeNotLonger(buf[..index] + buf[index + 2..], index);
      } else {
        match FindCRLF(buf, index)
        case None =>
        case Some(p) =>
          var len := ChunkLength(buf[index..p]);
          var rest := buf[..index] + buf[p + 2..];
          if len != 0 {
            DecodeNotLonger(rest, index + len);
          }
      }
    }
  }

  /** Decoding never changes what lies before `index`. */
  lemma {:induction false} DecodeKeepsPrefix(buf: seq<Byte>, index: nat)
    requires index <= |buf|
    ensures index <= |DecodeFrom(buf, index)| && DecodeFrom(buf, index)[..index] == buf[..index]
    decreases |buf|, 1
  {
    if index < |buf| {
      if buf[index] == CR && index + 1 < |buf| && buf[index + 1] == LF {
        var b := buf[..index] + buf[index + 2..];
        assert DecodeFrom(buf, index) == DecodeFrom(b, index);
        DecodeKeepsPrefix(b, index);
        assert b[..index] == buf[..index];
      } else if FindCRLF(buf, index).Some? {
        var p := FindCRLF(buf, index).value;
        var rest, len := buf[..index] + buf[p + 2..], ChunkLength(buf[index..p]);
        SizeLineUnfolds(buf, index, p, rest, len);
        SizeLineKeepsPrefix(buf, index, rest, len);
      }
    }
  }

  /** The size-line case of `DecodeKeepsPrefix`: the line is removed after
      `index`, leaving `rest`, and decoding stops or goes on `len` further. */
  lemma {:induction false} SizeLineKeepsPrefix(buf: seq<Byte>, index: nat, rest: seq<Byte>, len: nat)
    requires index <= |rest| < |buf| && rest[..index] == buf[..index]
    requires len == 0 ==> DecodeFrom(buf, index) == rest[..index]
    requires len != 0 ==> DecodeFrom(buf, index) == DecodeFrom(rest, index + len)
    ensures index <= |DecodeFrom(buf, index)| && DecodeFrom(buf, index)[..index] == buf[..index]
    decreases |buf|, 0
  {
    if len != 0 && index + len <= |rest| {
      var out := DecodeFrom(rest, index + len);
      DecodeKeepsPrefix(rest, index + len);
      SharedPrefix(out, rest, index, index + len);
    }
  }

  /** One step of the decoder at a size line ending at `p`: the line is
      removed, leaving `rest`, and `len` is the size it announces. */
  lemma SizeLineUnfolds(buf: seq<Byte>, index: nat, p: nat, rest: seq<Byte>, len: nat)
    requires index < |buf| && !(buf[index] == CR && index + 1 < |buf| && buf[index + 1] == LF)
    requires FindCRLF(buf, index) == Some(p)
    requires rest == buf[..index] + buf[p + 2..] && len == ChunkLength(buf[index..p])
    ensures index <= |rest| < |buf| && rest[..index] == buf[..index]
    ensures len == 0 ==> DecodeFrom(buf, index) == rest[..index]
    ensures len != 0 ==> DecodeFrom(buf, index) == DecodeFrom(rest, index + len)
  {
    assert index <= p && p + 1 < |buf|;
    assert rest[..index] == buf[..index];
  }


  /** Two sequences that agree up to `j` agree up to any `i <= j`. */
  lemma SharedPrefix(s: seq<Byte>, t: seq<Byte>, i: nat, j: nat)
    requires i <= j <= |s| && j <= |t| && s[..j] == t[..j]
    ensures s[..i] == t[..i]
  {
    assert s[..i] == s[..j][..i];
  }

  /** A size line with no leading hex digit reads as size 0: decoding stops
      there and the buffer is cut at the start of that line. */
  lemma NonHexSizeLineTruncates(buf: seq<Byte>, index: nat, p: nat)
    requires index < p && p + 1 < |buf| && buf[p] == CR && buf[p + 1] == LF
    requires forall k :: index <= k < p ==> buf[k] != 0 && buf[k] != CR
    requires !IsHexDigit(buf[index])
    ensures DecodeFrom(buf, index) == buf[..index]
  {
    FindCRLFAt(buf, index, p);
    assert HexPrefixLength(buf[index..p]) == 0;
    var rest := buf[..index] + buf[p + 2..];
    assert rest[..index] == buf[..index];
  }

  /** The lower-case hex digits of `n` (at least one digit). */
  function HexString(n: nat): (s: seq<Byte>)
    ensures |s| > 0 && forall i :: 0 <= i < |s| ==> IsHexDigit(s[i])
    ensures forall i :: 0 <= i < |s| ==> s[i] != 0 && s[i] != CR
  {
    if n < 16 then [HexDigitByte(n)] else HexString(n / 16) + [HexDigitByte(n % 16)]
  }

  function HexDigitByte(d: nat): (b: Byte)
    requires d < 16
    ensures IsHexDigit(b) && HexDigitValue(b) == d
  {
    if d < 10 then 48 + d else 87 + d
  }

  lemma {:induction false} HexStringValue(n: nat)
    ensures HexValue(HexString(n)) == n
  {
    if n >= 16 {
      var s := HexString(n);
      assert s[..|s| - 1] == HexString(n / 16);
      HexStringValue(n / 16);
    }
  }

  /** The chunk length read back from a size line holding `HexString(n)` is `n`. */
  lemma ChunkLengthOfHexString(n: nat)
    requires n < 0x1_0000_0000
    ensures ChunkLength(HexString(n)) == n
  {
    var s := HexString(n);
    assert s[..|s|] == s;
    HexStringValue(n);
  }

  /** The chunked encoding of the data chunks (sizes in lower-case hex),
      without the final zero-size chunk. */
  function EncodeChunks(chunks: seq<seq<Byte>>): seq<Byte>
  {
    if |chunks| == 0 then []
    else HexString(|chunks[0]|) + [CR, LF] + chunks[0] + [CR, LF] + EncodeChunks(chunks[1..])
  }

  function Concat(chunks: seq<seq<Byte>>): seq<Byte>
  {
    if |chunks| == 0 then [] else chunks[0] + Concat(chunks[1..])
  }

  /** The final zero-size chunk line `0` CRLF. */
  const LastChunk: seq<Byte> := [48, CR, LF]

  /** A bare CRLF at the decoding position is dropped. */
  lemma BareCRLFStep(a: seq<Byte>, b: seq<Byte>)
    ensures DecodeFrom(a + [CR, LF] + b, |a|) == DecodeFrom(a + b, |a|)
  {
    var buf := a + [CR, LF] + b;
    assert buf[|a|] == CR && buf[|a| + 1] == LF;
    assert buf[..|a|] + buf[|a| + 2..] == a + b;
  }

  /** A size line `h` CRLF at the decoding position is dropped, and decoding
      goes on after the chunk it announces; a zero size cuts the buffer there. */
  lemma SizeLineStep(a: seq<Byte>, h: seq<Byte>, b: seq<Byte>)
    requires |h| > 0 && forall i :: 0 <= i < |h| ==> h[i] != 0 && h[i] != CR
    ensures ChunkLength(h) != 0 ==> DecodeFrom(a + h + [CR, LF] + b, |a|) == DecodeFrom(a + b, |a| + ChunkLength(h))
    ensures ChunkLength(h) == 0 ==> DecodeFrom(a + h + [CR, LF] + b, |a|) == a
  {
    var buf := a + h + [CR, LF] + b;
    var index := |a|;
    var p := index + |h|;
    assert forall k :: index <= k < p ==> buf[k] == h[k - index];
    FindCRLFAt(buf, index, p);
    assert buf[index..p] == h;
    var rest := buf[..index] + buf[p + 2..];
    assert rest == a + b;
    assert buf[index] == h[0] != CR;
    SizeLineUnfolds(buf, index, p, rest, ChunkLength(h));
    assert rest[..index] == a;
  }

  /** The final zero-size chunk ends decoding, whatever follows it. */
  lemma LastChunkStep(a: seq<Byte>, tail: seq<Byte>)
    ensures DecodeFrom(a + LastChunk + tail, |a|) == a
  {
    var zero: seq<Byte> := [48];
    assert HexPrefixLength(zero) == 1;
    assert zero[..1] == zero;
    assert HexValue(zero) == 0 by {
      assert zero[..0] == [];
    }
    assert a + LastChunk + tail == a + zero + [CR, LF] + tail;
    SizeLineStep(a, zero, tail);
  }

  /** Round trip: decoding a chunked body whose chunks are non-empty and
      shorter than 2^32 bytes gives their concatenation, whatever follows the
      last chunk line, and whatever was already decoded before `index`. */
  lemma {:induction false} DecodeEncoded(prefix: seq<Byte>, chunks: seq<seq<Byte>>, tail: seq<Byte>)
    requires forall i :: 0 <= i < |chunks| ==> 0 < |chunks[i]| < 0x1_0000_0000
    ensures DecodeFrom(prefix + EncodeChunks(chunks) + LastChunk + tail, |prefix|) == prefix + Concat(chunks)
    decreases |chunks|
  {
    if |chunks| == 0 {
      assert prefix + EncodeChunks(chunks) + LastChunk + tail == prefix + LastChunk + tail;
      LastChunkStep(prefix, tail);
    } else {
      var c := chunks[0];
      var h := HexString(|c|);
      var more := EncodeChunks(chunks[1..]) + LastChunk + tail;
      ChunksBounded(chunks);
      var buf := prefix + EncodeChunks(chunks) + LastChunk + tail;
      assert buf == prefix + EncodeChunks(chunks) + (LastChunk + tail);
      EncodeOne(prefix, chunks, tail);
      OneChunkStep(prefix, c, more);
      DecodeEncoded(prefix + c, chunks[1..], tail);
      Assoc4(prefix + c, EncodeChunks(chunks[1..]), LastChunk, tail);
      assert Concat(chunks) == c + Concat(chunks[1..]);
      Assoc3(prefix, c, Concat(chunks[1..]));
    }
  }

  /** One data chunk: its size line and its closing CRLF are dropped, and
      decoding goes on right after its data. */
  lemma OneChunkStep(prefix: seq<Byte>, c: seq<Byte>, more: seq<Byte>)
    requires 0 < |c| < 0x1_0000_0000
    ensures DecodeFrom(prefix + HexString(|c|) + [CR, LF] + (c + [CR, LF] + more), |prefix|)
         == DecodeFrom((prefix + c) + more, |prefix + c|)
  {
    var crlf: seq<Byte> := [CR, LF];
    var x := c + crlf + more;
    calc {
      DecodeFrom(prefix + HexString(|c|) + crlf + x, |prefix|);
      { ChunkLengthOfHexString(|c|); SizeLineStep(prefix, HexString(|c|), x); }
      DecodeFrom(prefix + x, |prefix| + |c|);
      { Assoc4(prefix, c, crlf, more); assert |prefix| + |c| == |prefix + c|; }
      DecodeFrom(prefix + c + crlf + more, |prefix + c|);
      { BareCRLFStep(prefix + c, more); }
      DecodeFrom(prefix + c + more, |prefix + c|);
    }
  }

  lemma Assoc4(a: seq<Byte>, b: seq<Byte>, c: seq<Byte>, d: seq<Byte>)
    ensures a + (b + c + d) == a + b + c + d
  {
  }

  lemma Assoc3(a: seq<Byte>, b: seq<Byte>, c: seq<Byte>)
    ensures (a + b) + c == a + (b + c)
  {
  }

  lemma ChunksBounded(chunks: seq<seq<Byte>>)
    requires |chunks| > 0
    requires forall i :: 0 <= i < |chunks| ==> 0 < |chunks[i]| < 0x1_0000_0000
    ensures forall i :: 0 <= i < |chunks[1..]| ==> 0 < |chunks[1..][i]| < 0x1_0000_0000
  {
    forall i | 0 <= i < |chunks[1..]|
      ensures 0 < |chunks[1..][i]| < 0x1_0000_0000
    {
      assert chunks[1..][i] == chunks[i + 1];
    }
  }

  lemma EncodeOne(prefix: seq<Byte>, chunks: seq<seq<Byte>>, tail: seq<Byte>)
    requires |chunks| > 0
    ensures prefix + EncodeChunks(chunks) + LastChunk + tail ==
      prefix + HexString(|chunks[0]|) + [CR, LF] + (chunks[0] + [CR, LF] + (EncodeChunks(chunks[1..]) + LastChunk + tail))
  {
    var h, c, e := HexString(|chunks[0]|), chunks[0], EncodeChunks(chunks[1..]);
    assert EncodeChunks(chunks) == h + [CR, LF] + c + [CR, LF] + e;
    Regroup(prefix, h, c, e, LastChunk + tail);
  }

  lemma Regroup(p: seq<Byte>, h: seq<Byte>, c: seq<Byte>, e: seq<Byte>, t: seq<Byte>)
    ensures p + (h + [CR, LF] + c + [CR, LF] + e) + t == p + h + [CR, LF] + (c + [CR, LF] + (e + t))
  {
  }

  // ---------------------------------------------------------------------
  // Result code and DNS shortcut
  // ---------------------------------------------------------------------

  /** The code returned once the answer was read: `Ok` exactly for status 200. */
  function ResultCode(httpCode: int): (r: HttpErrorCode)
    ensures r == Ok <==> httpCode == 200
    ensures r != Ok ==> r == OtherHTTPError
  {
    if httpCode == 200 then Ok else OtherHTTPError
  }

  predicate IsNumericAddressChar(c: char)
  {
    ('0' <= c <= '9') || c == '.' || c == ' '
  }

  /** The shortcut of `DNS_resolve_async`: a name made only of digits, dots
      and spaces (the empty name included) is its own address; any other
      name needs the resolver (`None`). */
  function NumericAddress(name: string): (r: Option<string>)
    ensures r.Some? <==> forall i :: 0 <= i < |name| ==> IsNumericAddressChar(name[i])
    ensures r.Some? ==> r.value == name
  {
    if forall i :: 0 <= i < |name| ==> IsNumericAddressChar(name[i]) then Some(name) else None
  }
}

/**
 Header lines: what headerCallback of src/HttpStream.cpp takes out of a response and what
 setupConnection puts into the next request. A line is passed whole and ends in CRLF.
 */
module HttpHeaders {
  import opened Bytes
  import opened CacheObjects

  const CRLF: string := "\r\n"
  const STATUS: string := "HTTP"
  const ETAG: string := "ETag: "
  const LAST_MODIFIED: string := "Last-Modified: "
  const CONTENT_LENGTH: string := "Content-Length: "

  /** A response header line as libcurl hands it over; an entity-tag is not empty or a lone quote. */
  predicate HeaderLine(line: string) {
    && |line| >= 2 && line[|line| - 2..] == CRLF
    && (ETAG <= line ==> |line| > 8 && (line[6] == '"' ==> |line| > 9))
    && (LAST_MODIFIED <= line ==> |line| >= 17)
    && (CONTENT_LENGTH <= line ==> |line| >= 18)
  }

  // ---- C helpers ------------------------------------------------

  /** strdup and std::string(char*): up to the first NUL. */
  function CString(s: string): string {
    if s == [] || s[0] == '\0' then "" else [s[0]] + CString(s[1..])
  }

  predicate IsDigit(c: char) {
    '0' <= c <= '9'
  }

  /** The leading decimal digits, read on top of a value `acc`. */
  function DigitsFrom(s: string, acc: nat): nat
    decreases |s|
  {
    if s == [] || !IsDigit(s[0]) then acc else DigitsFrom(s[1..], 10 * acc + (s[0] as int - '0' as int))
  }

  const SIZE_T: nat := 0x1_0000_0000_0000_0000

  /** atol, stored into a size_t of 64 bits. */
  function Atol(s: string): nat
    decreases |s|
  {
    if s != [] && (s[0] == ' ' || s[0] == '\t') then Atol(s[1..])
    else if s != [] && s[0] == '-' then (SIZE_T - DigitsFrom(s[1..], 0) % SIZE_T) % SIZE_T
    else if s != [] && s[0] == '+' then DigitsFrom(s[1..], 0) % SIZE_T
    else DigitsFrom(s, 0) % SIZE_T
  }

  // ---- headerCallback, line by line ------------------------------------------------

  datatype Line = StatusLine | EtagLine | LastModifiedLine | ContentLengthLine | OtherLine

  /** Which branch a line takes. */
  function Kind(line: string): Line {
    if STATUS <= line then StatusLine
    else if ETAG <= line then EtagLine
    else if LAST_MODIFIED <= line then LastModifiedLine
    else if CONTENT_LENGTH <= line then ContentLengthLine
    else OtherLine
  }

  /** The lines that are looked at, by what they begin with. */
  lemma {:induction false} KindIs(line: string)
    ensures Kind(line) == StatusLine <==> "HTTP" <= line
    ensures Kind(line) == EtagLine <==> "ETag: " <= line
    ensures Kind(line) == LastModifiedLine <==> "Last-Modified: " <= line
    ensures Kind(line) == ContentLengthLine <==> "Content-Length: " <= line
  {
    assert "HTTP"[0] == 'H' && "ETag: "[0] == 'E' && "Last-Modified: "[0] == 'L' && "Content-Length: "[0] == 'C';
  }

  /** " 200" at position p, behind the four characters of HTTP. */
  predicate OkAt(line: string, p: nat) {
    4 <= p && p + 4 <= |line| && line[p] == ' ' && line[p + 1] == '2' && line[p + 2] == '0' && line[p + 3] == '0'
  }

  /** A status line counts as "200" when a blank anywhere behind HTTP is followed by 200. */
  ghost predicate SaysOk(line: string) {
    Kind(line) == StatusLine && exists p: nat :: OkAt(line, p)
  }

  /** The scan for the status code. */
  method ScanStatus(line: string) returns (ok: bool)
    requires STATUS <= line
    ensures ok <==> SaysOk(line)
  {
    ok := false;
    var c := 0;
    while c < |line| - 4
      invariant 0 <= c <= |line| - 4
      invariant ok <==> exists p: nat :: p < c + 4 && OkAt(line, p)
    {
      if line[4 + c] == ' ' {
        if c + 4 + 4 > |line| {
          break;
        }
        if line[4 + c + 1] == '2' && line[4 + c + 2] == '0' && line[4 + c + 3] == '0' {
          assert OkAt(line, 4 + c);
          ok := true;
        }
      }
      c := c + 1;
    }
  }

  /** " 200" stands at p. */
  predicate Has200(s: string, p: nat) {
    p + 4 <= |s| && s[p..p + 4] == " 200"
  }

  /** A status line with the three digits of a code, and whatever stands behind them. */
  function StatusWith(version: string, code: string, tail: string): string {
    STATUS + version + " " + code + tail
  }

  /**
   A status line says 200 if and only if that is its code, or " 200" stands somewhere behind the code,
   as it may in a reason phrase.
   */
  lemma {:induction false} StatusSays(version: string, code: string, tail: string)
    requires ' ' !in version && ' ' !in code && |code| == 3
    ensures SaysOk(StatusWith(version, code, tail)) <==> code == "200" || exists p: nat :: Has200(tail, p)
  {
    var line, v, n := StatusWith(version, code, tail), |version|, |version| + 8;
    assert line == (STATUS + version + " " + code) + tail && STATUS <= line;
    assert line[4..v + 4] == version && line[v + 5..n] == code && line[n..] == tail && line[v + 4] == ' ';
    forall p: nat
      ensures OkAt(line, p) <==> (p == v + 4 && code == "200") || (n <= p && Has200(tail, p - n))
    {
      if 4 <= p < v + 4 {
        assert line[p] == version[p - 4] && version[p - 4] in version;
      } else if p == v + 4 {
        assert line[p + 1] == code[0] && line[p + 2] == code[1] && line[p + 3] == code[2];
        assert OkAt(line, p) <==> code == ['2', '0', '0'];
      } else if v + 4 < p < n {
        assert line[p] == code[p - v - 5] && code[p - v - 5] in code;
      } else if n <= p && p + 4 <= |line| {
        assert line[p..p + 4] == tail[p - n..p - n + 4];
        assert OkAt(line, p) <==> line[p..p + 4] == [' ', '2', '0', '0'];
      }
    }
    if p: nat :| Has200(tail, p) {
      assert OkAt(line, n + p);
    }
    assert code == "200" ==> OkAt(line, v + 4);
  }

  /** A part of a document is not taken for the whole; a strange reason phrase is taken for a 200. */
  lemma {:induction false} PartialIsNotOk()
    ensures !SaysOk(StatusWith("/1.1", "206", " Partial\r\n")) && SaysOk(StatusWith("/1.1", "404", " not 200\r\n"))
  {
    StatusSays("/1.1", "206", " Partial\r\n");
    StatusSays("/1.1", "404", " not 200\r\n");
    assert Has200(" not 200\r\n", 4);
  }

  /** The ETag branch: three characters go at the end, and a quote at the front if there is one. */
  function EtagOf(line: string): string
    requires HeaderLine(line) && ETAG <= line
  {
    if line[6] == '"' then line[7..|line| - 3] else line[6..|line| - 3]
  }

  function LastModifiedOf(line: string): string
    requires HeaderLine(line) && LAST_MODIFIED <= line
  {
    line[15..|line| - 2]
  }

  function ContentLengthOf(line: string): nat
    requires HeaderLine(line) && CONTENT_LENGTH <= line
  {
    Atol(line[16..|line| - 2])
  }

  /** Some line says 200: the stream takes the answer for one to be stored, and nothing makes it forget. */
  ghost predicate Says(lines: seq<string>) {
    lines != [] && (Says(lines[..|lines| - 1]) || SaysOk(lines[|lines| - 1]))
  }

  /** The length that the last Content-Length line announces; 0 if there is none. */
  function Announced(lines: seq<string>): nat {
    if lines == [] then 0 else
      var line := lines[|lines| - 1];
      if HeaderLine(line) && Kind(line) == ContentLengthLine then ContentLengthOf(line)
      else Announced(lines[..|lines| - 1])
  }

  /** One line more. */
  lemma {:induction false} LineMore(lines: seq<string>, n: nat)
    requires n < |lines| && HeaderLine(lines[n])
    ensures Says(lines[..n + 1]) == (Says(lines[..n]) || SaysOk(lines[n]))
    ensures Announced(lines[..n + 1]) ==
      if Kind(lines[n]) == ContentLengthLine then ContentLengthOf(lines[n]) else Announced(lines[..n])
  {
    assert lines[..n + 1][..n] == lines[..n] && lines[..n + 1][n] == lines[n];
  }

  lemma {:induction false} SaysIs(lines: seq<string>)
    ensures Says(lines) <==> exists line | line in lines :: SaysOk(line)
  {
    if lines != [] {
      var n := |lines| - 1;
      SaysIs(lines[..n]);
      assert lines == lines[..n] + [lines[n]];
    }
  }

  /** The validators that a cache object keeps, and its tidy flag, which no header line touches. */
  datatype Tags = Tags(etag: Option<string>, date: Option<string>, tidied: bool)

  function TagsOf(h: Headers): Tags {
    Tags(h.pEtag, h.pLast_modified, h.bTidyFlag)
  }

  /** What a header line makes of them. */
  function TagsAfter(t: Tags, line: string): Tags
    requires HeaderLine(line)
  {
    match Kind(line)
    case EtagLine => t.(etag := Some(CString(EtagOf(line))))
    case LastModifiedLine => t.(date := Some(CString(LastModifiedOf(line))))
    case _ => t
  }

  const NO_TAGS: Tags := Tags(None, None, false)

  function TagsAll(t: Tags, lines: seq<string>): Tags
    requires forall line | line in lines :: HeaderLine(line)
  {
    if lines == [] then t else TagsAfter(TagsAll(t, lines[..|lines| - 1]), lines[|lines| - 1])
  }

  /** How many characters the ETag branch copies, in the arithmetic of size_t. */
  function EtagCopied(line: string): nat
    requires ETAG <= line && |ETAG| < |line|
  {
    var dataSize := |line| - |ETAG| - 3;
    (if line[6] == '"' then dataSize - 1 else dataSize) % SIZE_T
  }

  /** The length wraps around exactly for an empty value and for a lone quote, which are no entity-tags. */
  lemma {:induction false} EtagLengthFits(line: string)
    requires ETAG <= line && 8 <= |line| < SIZE_T && line[|line| - 2..] == CRLF
    ensures HeaderLine(line) <==> ValueOf(line) != "" && ValueOf(line) != "\""
    ensures if HeaderLine(line) then EtagCopied(line) == |EtagOf(line)| <= |line| else EtagCopied(line) == SIZE_T - 1
  {
    assert line[0] == ETAG[0] && STATUS[0] == 'H' && Kind(line) == EtagLine;
    var v := line[6..|line| - 2];
    assert v != [] ==> v[0] == line[6];
    assert line[|line| - 2..][0] == line[|line| - 2];
    assert v == "\"" <==> |line| == 9 && line[6] == '"';
  }

  /** All other lines that end in CRLF are header lines. */
  lemma {:induction false} HeaderLineIs(line: string)
    requires 2 <= |line| && line[|line| - 2..] == "\r\n"
    ensures HeaderLine(line) <==> line != "ETag: \r\n" && line != "ETag: \"\r\n"
  {
    var n := |line|;
    assert line == line[..n - 2] + "\r\n" && line[n - 2] == line[n - 2..][0] && line[n - 1] == line[n - 2..][1];
    if ETAG <= line {
      assert n >= 8;
      assert line[..n - 2] == ETAG + line[6..n - 2];
      assert n == 9 ==> line[6..7] == [line[6]];
      assert line[6] == '"' && n == 9 ==> line == "ETag: " + "\"" + "\r\n";
    }
  }

  // ---- setupConnection ------------------------------------------------

  /** The values of If-Modified-Since and If-None-Match, where the request carries them. */
  datatype Conditional = Conditional(ifModifiedSince: Option<string>, ifNoneMatch: Option<string>)

  function Sent(t: Tags): Conditional {
    Conditional(t.date, if t.etag.Some? then Some("\"" + t.etag.value + "\"") else None)
  }

  function ConditionalHeaders(h: Headers): Conditional {
    Sent(TagsOf(h))
  }

  // ---- Validators make the round trip ------------------------------------------------

  predicate Quoted(v: string) {
    |v| >= 2 && v[0] == '"' && v[|v| - 1] == '"'
  }

  lemma {:induction false} CStringWhole(s: string)
    ensures CString(s) <= s && '\0' !in CString(s)
    ensures |CString(s)| < |s| ==> s[|CString(s)|] == '\0'
    ensures CString(s) == s <==> '\0' !in s
  {
    if s != [] && s[0] != '\0' {
      CStringWhole(s[1..]);
      assert s == [s[0]] + s[1..];
    }
  }

  /** The value in the last line of a kind, if there is one. */
  function LastValue(lines: seq<string>, kind: Line): Option<string>
    requires kind == EtagLine || kind == LastModifiedLine
  {
    if lines == [] then None else
      var line := lines[|lines| - 1];
      if Kind(line) == kind then Some(ValueOf(line)) else LastValue(lines[..|lines| - 1], kind)
  }

  /** What stands between the name of the field and CRLF. */
  function ValueOf(line: string): string {
    var from := match Kind(line) case EtagLine => |ETAG| case LastModifiedLine => |LAST_MODIFIED| case _ => 0;
    if from + 2 <= |line| then line[from..|line| - 2] else []
  }

  /** What is kept of an entity-tag: all but the last character, and but a quote at the front. */
  lemma {:induction false} KeptOf(line: string)
    requires HeaderLine(line) && Kind(line) == EtagLine
    ensures var v := ValueOf(line);
      && |v| >= 1 && (v[0] == '"' ==> |v| >= 2)
      && EtagOf(line) == if v[0] == '"' then v[1..|v| - 1] else v[..|v| - 1]
  {
    var v := ValueOf(line);
    var n := |line|;
    assert v == line[6..n - 2] && |v| == n - 8 && v[0] == line[6];
    if v[0] == '"' {
      var inner := line[7..n - 3];
      assert |inner| == |v| - 2 && forall k | 0 <= k < |inner| :: inner[k] == v[k + 1];
      assert v[1..|v| - 1] == inner;
    } else {
      assert v[..|v| - 1] == line[6..n - 3];
    }
  }

  /** A kept tag in quotes is the tag there was exactly when that was quoted and held no NUL. */
  lemma {:induction false} RequotedIs(v: string, kept: string)
    requires |v| >= 1 && (v[0] == '"' ==> |v| >= 2)
    requires kept == if v[0] == '"' then v[1..|v| - 1] else v[..|v| - 1]
    ensures "\"" + CString(kept) + "\"" == v <==> Quoted(v) && '\0' !in v
  {
    var sent := "\"" + CString(kept) + "\"";
    CStringWhole(kept);
    if Quoted(v) {
      assert v == "\"" + kept + "\"";
      if '\0' in kept {
        assert |sent| == |CString(kept)| + 2;
        assert sent[1..|sent| - 1] == CString(kept) && v[1..|v| - 1] == kept;
      }
    } else if v[0] != '"' {
      assert sent[0] == '"';
    } else {
      assert |v| >= 2 && sent[|sent| - 1] == '"';
    }
  }

  /**
   If-None-Match carries the very entity-tag of the ETag line exactly when that was a strong, quoted
   one (sections 2.3 and 3.2 of RFC 7232). A weak or unquoted tag never comes back unchanged.
   */
  lemma {:induction false} EtagRoundTrip(line: string, t: Tags)
    requires HeaderLine(line) && Kind(line) == EtagLine && t.etag == Some(CString(EtagOf(line)))
    ensures var v := ValueOf(line); Sent(t).ifNoneMatch == Some(v) <==> Quoted(v) && '\0' !in v
  {
    KeptOf(line);
    RequotedIs(ValueOf(line), EtagOf(line));
  }

  /** A tag that does not begin with a quote, such as a weak one, loses its last character and gets quotes. */
  lemma {:induction false} UnquotedIsMangled(v: string, t: Tags)
    requires v != "" && v[0] != '"' && '\0' !in v
    ensures var line := ETAG + (v + CRLF);
      && HeaderLine(line) && Kind(line) == EtagLine && ValueOf(line) == v
      && Sent(TagsAfter(t, line)).ifNoneMatch == Some("\"" + v[..|v| - 1] + "\"")
  {
    var line := ETAG + (v + CRLF);
    assert line[0] == 'E' && line[6] == v[0] && |line| == |v| + 8 && line[|line| - 2..] == CRLF;
    assert line[6..|line| - 2] == v && line[6..|line| - 3] == v[..|v| - 1];
    CStringWhole(v[..|v| - 1]);
  }

  lemma {:induction false} WeakTagIsMangled(t: Tags)
    ensures Sent(TagsAfter(t, ETAG + ("W/\"a\"" + CRLF))).ifNoneMatch == Some("\"W/\"a\"")
  {
    UnquotedIsMangled("W/\"a\"", t);
    assert "W/\"a\""[..4] == "W/\"a";
    assert "\"" + "W/\"a" + "\"" == "\"W/\"a\"";
  }

  /** If-Modified-Since carries the date of the Last-Modified line byte for byte (section 3.3). */
  lemma {:induction false} DateRoundTrip(line: string, t: Tags)
    requires HeaderLine(line) && Kind(line) == LastModifiedLine && t.date == Some(CString(LastModifiedOf(line)))
    ensures var v := ValueOf(line); Sent(t).ifModifiedSince == Some(v) <==> '\0' !in v
  {
    assert LastModifiedOf(line) == ValueOf(line);
    CStringWhole(ValueOf(line));
  }

  /** After a response the validators are those of its last lines of either kind. */
  lemma {:induction false} TagsAreLast(t: Tags, lines: seq<string>)
    requires forall line | line in lines :: HeaderLine(line)
    ensures var etag, sent := LastValue(lines, EtagLine), Sent(TagsAll(t, lines));
      if etag.None? then TagsAll(t, lines).etag == t.etag
      else sent.ifNoneMatch == etag <==> Quoted(etag.value) && '\0' !in etag.value
    ensures var date, sent := LastValue(lines, LastModifiedLine), Sent(TagsAll(t, lines));
      if date.None? then TagsAll(t, lines).date == t.date
      else sent.ifModifiedSince == date <==> '\0' !in date.value
  {
    if lines != [] {
      var n, line := |lines| - 1, lines[|lines| - 1];
      assert line in lines && forall l | l in lines[..n] :: l in lines;
      TagsAreLast(t, lines[..n]);
      var now := TagsAll(t, lines);
      if Kind(line) == EtagLine {
        EtagRoundTrip(line, now);
      } else if Kind(line) == LastModifiedLine {
        DateRoundTrip(line, now);
      }
    }
  }

  lemma {:induction false} TagsAllConcat(t: Tags, a: seq<string>, b: seq<string>)
    requires forall line | line in a + b :: HeaderLine(line)
    ensures (forall line | line in a :: HeaderLine(line)) && (forall line | line in b :: HeaderLine(line))
    ensures TagsAll(t, a + b) == TagsAll(TagsAll(t, a), b)
  {
    assert forall line | line in a || line in b :: line in a + b;
    if b == [] {
      assert a + b == a;
    } else {
      var n := |b| - 1;
      assert (a + b)[..|a + b| - 1] == a + b[..n];
      TagsAllConcat(t, a, b[..n]);
    }
  }

  /** What is kept of the last line of a kind, if there is one. */
  function LastKept(lines: seq<string>, kind: Line): Option<string>
    requires kind == EtagLine || kind == LastModifiedLine
    requires forall line | line in lines :: HeaderLine(line)
  {
    if lines == [] then None else
      var line := lines[|lines| - 1];
      if Kind(line) == kind then Some(CString(if kind == EtagLine then EtagOf(line) else LastModifiedOf(line)))
      else LastKept(lines[..|lines| - 1], kind)
  }

  /** The lines bring no validator other than those there are. */
  predicate Unmoved(t: Tags, lines: seq<string>)
    requires forall line | line in lines :: HeaderLine(line)
  {
    && (LastKept(lines, EtagLine).Some? ==> LastKept(lines, EtagLine) == t.etag)
    && (LastKept(lines, LastModifiedLine).Some? ==> LastKept(lines, LastModifiedLine) == t.date)
  }

  /** Lines leave the validators as they are if and only if the last of either kind repeats what is there. */
  lemma {:induction false} UnmovedExactly(t: Tags, lines: seq<string>)
    requires forall line | line in lines :: HeaderLine(line)
    ensures var etag, date := LastKept(lines, EtagLine), LastKept(lines, LastModifiedLine);
      TagsAll(t, lines) == Tags(if etag.Some? then etag else t.etag, if date.Some? then date else t.date, t.tidied)
    ensures TagsAll(t, lines) == t <==> Unmoved(t, lines)
  {
    if lines != [] {
      UnmovedExactly(t, lines[..|lines| - 1]);
    }
  }

  /** Decimal notation, as servers write Content-Length. */
  function Decimal(n: nat): (s: string)
    ensures s != [] && forall c | c in s :: IsDigit(c)
  {
    var d := [(n % 10 + '0' as int) as char];
    if n < 10 then d else Decimal(n / 10) + d
  }

  lemma {:induction false} DigitsFromConcat(s: string, t: string, acc: nat)
    requires forall c | c in s :: IsDigit(c)
    ensures DigitsFrom(s + t, acc) == DigitsFrom(t, DigitsFrom(s, acc))
    decreases |s|
  {
    if s == [] {
      assert s + t == t;
    } else {
      assert s[0] in s;
      DigitsFromConcat(s[1..], t, 10 * acc + (s[0] as int - '0' as int));
      assert (s + t)[1..] == s[1..] + t;
    }
  }

  lemma {:induction false} DigitsFromDecimal(n: nat)
    ensures DigitsFrom(Decimal(n), 0) == n
  {
    var d := [(n % 10 + '0' as int) as char];
    if 10 <= n {
      DigitsFromDecimal(n / 10);
      DigitsFromConcat(Decimal(n / 10), d, 0);
    }
    assert DigitsFrom(d[1..], 10 * (n / 10) + n % 10) == n;
  }

  lemma {:induction false} DigitsFromTail(s: string, tail: string, acc: nat)
    requires (forall c | c in s :: IsDigit(c)) && (tail != [] ==> !IsDigit(tail[0]))
    ensures DigitsFrom(s + tail, acc) == DigitsFrom(s, acc)
  {
    DigitsFromConcat(s, tail, acc);
  }

  /** atol passes over blanks, stops at what is no digit, and a minus sign wraps around. */
  lemma {:induction false} AtolReads(blanks: string, n: nat, tail: string)
    requires n < SIZE_T && (forall c | c in blanks :: c == ' ' || c == '\t') && (tail != [] ==> !IsDigit(tail[0]))
    ensures Atol(blanks + (Decimal(n) + tail)) == n
    ensures Atol(blanks + ("-" + (Decimal(n) + tail))) == (SIZE_T - n) % SIZE_T
    decreases |blanks|
  {
    var digits, minus := Decimal(n) + tail, "-" + (Decimal(n) + tail);
    if blanks == [] {
      assert blanks + digits == digits && blanks + minus == minus && minus[1..] == digits;
      assert Decimal(n)[0] in Decimal(n);
      DigitsFromTail(Decimal(n), tail, 0);
      DigitsFromDecimal(n);
    } else {
      assert blanks[0] in blanks && forall c | c in blanks[1..] :: c in blanks;
      assert (blanks + digits)[1..] == blanks[1..] + digits && (blanks + minus)[1..] == blanks[1..] + minus;
      AtolReads(blanks[1..], n, tail);
    }
  }

  /** The length in a Content-Length line is the number the server wrote. */
  lemma {:induction false} ContentLengthRoundTrip(n: nat)
    requires n < SIZE_T
    ensures ContentLengthOf(CONTENT_LENGTH + Decimal(n) + CRLF) == n
  {
    var line := CONTENT_LENGTH + Decimal(n) + CRLF;
    assert line[16..|line| - 2] == Decimal(n);
    assert Decimal(n)[0] in Decimal(n);
    DigitsFromDecimal(n);
  }
}

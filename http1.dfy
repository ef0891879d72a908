/**
 A small reader for HTTP/1.1 response messages, following section 2.1 of RFC 9112
 (a start line, field lines, an empty line, each ended by CRLF, then the body),
 section 4 of RFC 9112 (the status line) and section 5 of RFC 9112 (field lines).
 It is the client's view against which the hand-written slow-write response is checked.
 A bare CR (one not followed by LF) makes the message invalid, as section 2.2 of RFC 9112 allows.
 */
module Http1 {
  import opened Wrappers
  import opened Decimal

  const CRLF: string := "\r\n"

  datatype StatusLine = StatusLine(version: string, code: nat, reason: string)
  datatype Field = Field(name: string, value: string)
  datatype Message = Message(status: StatusLine, fields: seq<Field>, body: string)

  /** The index of the first occurrence of `c` in `s` at or after `from`, if any. */
  function IndexFrom(s: string, c: char, from: nat): (r: Option<nat>)
    requires from <= |s|
    ensures r.Some? ==> from <= r.value < |s| && s[r.value] == c && forall j :: from <= j < r.value ==> s[j] != c
    ensures r.None? <==> forall j :: from <= j < |s| ==> s[j] != c
    decreases |s| - from
  {
    if from == |s| then None
    else if s[from] == c then Some(from)
    else IndexFrom(s, c, from + 1)
  }

  /** The index of the first occurrence of `c` in `s`, if any. */
  function IndexOf(s: string, c: char): (r: Option<nat>)
    ensures r.Some? ==> r.value < |s| && s[r.value] == c && c !in s[..r.value]
    ensures r.None? <==> c !in s
  {
    var r := IndexFrom(s, c, 0);
    assert r.Some? ==> forall j :: 0 <= j < r.value ==> s[..r.value][j] == s[j];
    r
  }

  lemma AppendAssoc(a: string, b: string, c: string)
    ensures a + (b + c) == a + b + c
  {
  }

  /** If `a` does not contain `c`, the first `c` in `a + [c] + b` is the one after `a`. */
  lemma IndexOfAfter(a: string, c: char, b: string)
    requires c !in a
    ensures IndexOf(a + [c] + b, c) == Some(|a|)
  {
    var s := a + [c] + b;
    assert s[|a|] == c;
    assert s[..|a|] == a;
  }

  /** Splits off the first line: the text before the first CR, which must be followed by LF. */
  function ReadLine(s: string): (r: Option<(string, string)>)
    ensures r.Some? ==> s == r.value.0 + CRLF + r.value.1 && '\r' !in r.value.0
  {
    match IndexOf(s, '\r')
    case None => None
    case Some(i) =>
      if i + 1 < |s| && s[i + 1] == '\n' then
        assert s == s[..i] + CRLF + s[i + 2..];
        Some((s[..i], s[i + 2..]))
      else
        None
  }

  /** A line with no CR, followed by CRLF, is read back exactly. */
  lemma ReadLineAppend(line: string, rest: string)
    requires '\r' !in line
    ensures ReadLine(line + CRLF + rest) == Some((line, rest))
  {
    var s := line + CRLF + rest;
    assert s == line + ['\r'] + (['\n'] + rest);
    IndexOfAfter(line, '\r', ['\n'] + rest);
    assert s[..|line|] == line && s[|line| + 2..] == rest;
  }

  /** Optional whitespace, section 5.6.3 of RFC 9110. */
  predicate IsOws(c: char) {
    c == ' ' || c == '\t'
  }

  /** The first index at or after `from` that does not hold optional whitespace. */
  function OwsEnd(s: string, from: nat): (k: nat)
    requires from <= |s|
    ensures from <= k <= |s|
    decreases |s| - from
  {
    if from < |s| && IsOws(s[from]) then OwsEnd(s, from + 1) else from
  }

  /** The last index at or before `to` that does not follow optional whitespace. */
  function OwsStart(s: string, to: nat): (k: nat)
    requires to <= |s|
    ensures k <= to
  {
    if 0 < to && IsOws(s[to - 1]) then OwsStart(s, to - 1) else to
  }

  /** `s` without its leading optional whitespace. */
  function TrimLeft(s: string): string {
    s[OwsEnd(s, 0)..]
  }

  /** `s` without its trailing optional whitespace. */
  function TrimRight(s: string): string {
    s[..OwsStart(s, |s|)]
  }

  /** `field-line = field-name ":" OWS field-value OWS`; the name is non-empty and holds no whitespace. */
  function ParseField(line: string): (r: Option<Field>)
    ensures r.Some? ==> ':' !in r.value.name && r.value.name != []
  {
    match IndexOf(line, ':')
    case None => None
    case Some(i) =>
      var name := line[..i];
      if name == [] || ' ' in name || '\t' in name then None
      else Some(Field(name, TrimRight(TrimLeft(line[i + 1..]))))
  }

  /** A value with no leading whitespace, after one space: trimming on the left removes just that space. */
  lemma TrimLeftSpace(value: string)
    requires value != [] ==> !IsOws(value[0])
    ensures TrimLeft(" " + value) == value
  {
    var s := " " + value;
    assert OwsEnd(s, 1) == 1;
    assert s[1..] == value;
  }

  /** A value with no trailing whitespace is left alone by trimming on the right. */
  lemma TrimRightNone(value: string)
    requires value != [] ==> !IsOws(value[|value| - 1])
    ensures TrimRight(value) == value
  {
    assert value[..|value|] == value;
  }

  /** The colon after a name without colons is the first one, and it splits the line there. */
  lemma SplitAtColon(name: string, rest: string)
    requires ':' !in name
    ensures var line := name + ":" + rest;
      IndexOf(line, ':') == Some(|name|) && line[..|name|] == name && line[|name| + 1..] == rest
  {
    var line := name + ":" + rest;
    assert line == name + [':'] + rest;
    IndexOfAfter(name, ':', rest);
  }

  /** A field line written as `name ": " value` reads back as that field, when the value has no surrounding whitespace. */
  lemma ParseFieldLine(name: string, value: string)
    requires name != [] && ':' !in name && ' ' !in name && '\t' !in name
    requires value != [] ==> !IsOws(value[0]) && !IsOws(value[|value| - 1])
    ensures ParseField(name + ": " + value) == Some(Field(name, value))
  {
    var rest := " " + value;
    assert name + ": " + value == name + ":" + rest;
    SplitAtColon(name, rest);
    TrimLeftSpace(value);
    TrimRightNone(value);
  }

  /** Field lines up to and including the empty line; returns the fields and what follows (the body). */
  function ParseFields(s: string): (r: Option<(seq<Field>, string)>)
    ensures r.Some? ==> |r.value.1| + 2 <= |s|
    decreases |s|
  {
    match ReadLine(s)
    case None => None
    case Some((line, rest)) =>
      if line == [] then Some(([], rest))
      else match ParseField(line)
        case None => None
        case Some(f) =>
          match ParseFields(rest)
          case None => None
          case Some((fs, body)) => Some(([f] + fs, body))
  }

  /** A field its line can carry: a name with no colon, whitespace or CR, a value with no CR and no surrounding whitespace. */
  predicate WellFormedField(f: Field) {
    && f.name != [] && ':' !in f.name && ' ' !in f.name && '\t' !in f.name && '\r' !in f.name
    && '\r' !in f.value
    && (f.value != [] ==> !IsOws(f.value[0]) && !IsOws(f.value[|f.value| - 1]))
  }

  /** The field lines a sender writes: `name ": " value CRLF` for each field, in order. */
  function FieldLines(fields: seq<Field>): string {
    if fields == [] then [] else fields[0].name + ": " + fields[0].value + CRLF + FieldLines(fields[1..])
  }

  /** The first field's line, then the rest of the block. */
  lemma FieldLinesCons(fields: seq<Field>, body: string)
    requires fields != []
    ensures FieldLines(fields) + CRLF + body
         == (fields[0].name + ": " + fields[0].value) + CRLF + (FieldLines(fields[1..]) + CRLF + body)
  {
  }

  /** A well-formed field's line holds no CR. */
  lemma FieldLineNoCr(f: Field)
    requires WellFormedField(f)
    ensures '\r' !in f.name + ": " + f.value
  {
  }

  /** A field line, CRLF, then more field lines: the field, then those that follow. */
  lemma ParseFieldsCons(line: string, rest: string, f: Field, fs: seq<Field>, body: string)
    requires '\r' !in line && line != [] && ParseField(line) == Some(f)
    requires ParseFields(rest) == Some((fs, body))
    ensures ParseFields(line + CRLF + rest) == Some(([f] + fs, body))
  {
    ReadLineAppend(line, rest);
  }

  /** A well-formed field's line, CRLF, then more field lines: the field, then those that follow. */
  lemma ParseFieldsStep(f: Field, fs: seq<Field>, tail: string, body: string)
    requires WellFormedField(f)
    requires ParseFields(tail) == Some((fs, body))
    ensures ParseFields(f.name + ": " + f.value + CRLF + tail) == Some(([f] + fs, body))
  {
    FieldLineNoCr(f);
    ParseFieldLine(f.name, f.value);
    ParseFieldsCons(f.name + ": " + f.value, tail, f, fs, body);
  }

  /** Reading back written field lines, the empty line and a body gives the same fields and body. */
  lemma {:induction false} ParseFieldsRoundTrip(fields: seq<Field>, body: string)
    requires forall i :: 0 <= i < |fields| ==> WellFormedField(fields[i])
    ensures ParseFields(FieldLines(fields) + CRLF + body) == Some((fields, body))
  {
    if fields == [] {
      assert FieldLines(fields) + CRLF + body == "" + CRLF + body;
      ReadLineAppend("", body);
    } else {
      assert WellFormedField(fields[0]);
      ParseFieldsRoundTrip(fields[1..], body);
      FieldLinesCons(fields, body);
      ParseFieldsStep(fields[0], fields[1..], FieldLines(fields[1..]) + CRLF + body, body);
      assert [fields[0]] + fields[1..] == fields;
    }
  }

  /** `status-line = HTTP-version SP status-code SP [ reason-phrase ]` with `HTTP-version = "HTTP/" DIGIT "." DIGIT`. */
  function ParseStatusLine(line: string): (r: Option<StatusLine>)
  {
    if |line| >= 13 && line[..5] == "HTTP/" && '0' <= line[5] <= '9' && line[6] == '.' && '0' <= line[7] <= '9'
       && line[8] == ' ' && IsDigits(line[9..12]) && line[12] == ' '
    then
      Some(StatusLine(line[..8], ParseDecimal(line[9..12]), line[13..]))
    else
      None
  }

  /** A status line its text can carry: `HTTP/d.d`, a three-digit code, a reason with no CR. */
  predicate WellFormedStatus(st: StatusLine) {
    && |st.version| == 8 && st.version[..5] == "HTTP/" && '0' <= st.version[5] <= '9'
    && st.version[6] == '.' && '0' <= st.version[7] <= '9'
    && 100 <= st.code <= 999 && '\r' !in st.reason
  }

  /** The status line a sender writes. */
  function StatusText(st: StatusLine): string {
    st.version + " " + Itoa(st.code) + " " + st.reason
  }

  /** A three-digit code is spelled with three digits. */
  lemma ThreeDigits(n: nat)
    requires 100 <= n <= 999
    ensures |Itoa(n)| == 3
  {
    assert Itoa(n) == Itoa(n / 10) + [DigitChar(n % 10)];
    assert Itoa(n / 10) == Itoa(n / 100) + [DigitChar(n / 10 % 10)];
  }

  /** A line made of a version, SP, three digits, SP and a reason splits into those parts. */
  lemma ParseStatusLineParts(version: string, digits: string, reason: string)
    requires |version| == 8 && version[..5] == "HTTP/" && '0' <= version[5] <= '9'
    requires version[6] == '.' && '0' <= version[7] <= '9'
    requires |digits| == 3 && IsDigits(digits)
    ensures ParseStatusLine(version + " " + digits + " " + reason)
         == Some(StatusLine(version, ParseDecimal(digits), reason))
  {
    var line := version + " " + digits + " " + reason;
    assert line[..8] == version;
    assert line[..5] == version[..5];
    assert line[9..12] == digits;
    assert line[13..] == reason;
  }

  /** A well-formed status line holds no CR. */
  lemma StatusTextNoCr(st: StatusLine)
    requires WellFormedStatus(st)
    ensures '\r' !in StatusText(st)
  {
    assert st.version == st.version[..5] + [st.version[5], st.version[6], st.version[7]];
    var digits := Itoa(st.code);
    assert forall i :: 0 <= i < |digits| ==> digits[i] != '\r';
  }

  /** Reading a written status line gives back its parts. */
  lemma ParseStatusLineRoundTrip(st: StatusLine)
    requires WellFormedStatus(st)
    ensures '\r' !in StatusText(st)
    ensures ParseStatusLine(StatusText(st)) == Some(st)
  {
    StatusTextNoCr(st);
    ThreeDigits(st.code);
    ParseStatusLineParts(st.version, Itoa(st.code), st.reason);
    ParseItoa(st.code);
  }

  /** Reads a whole response: status line, fields, and everything after the empty line as the body. */
  function ParseResponse(s: string): (r: Option<Message>)
    ensures r.Some? ==> |r.value.body| < |s|
  {
    match ReadLine(s)
    case None => None
    case Some((first, rest)) =>
      match ParseStatusLine(first)
      case None => None
      case Some(status) =>
        match ParseFields(rest)
        case None => None
        case Some((fields, body)) => Some(Message(status, fields, body))
  }

  /** A response written as a status line, field lines, the empty line and a body reads back as those parts. */
  lemma ParseResponseRoundTrip(status: StatusLine, fields: seq<Field>, body: string)
    requires WellFormedStatus(status)
    requires forall i :: 0 <= i < |fields| ==> WellFormedField(fields[i])
    ensures ParseResponse(StatusText(status) + CRLF + FieldLines(fields) + CRLF + body) == Some(Message(status, fields, body))
  {
    var statusText := StatusText(status);
    ParseStatusLineRoundTrip(status);
    var block := FieldLines(fields);
    var rest := block + CRLF + body;
    var s := statusText + CRLF + block + CRLF + body;
    assert s == statusText + CRLF + rest by {
      AppendAssoc(statusText + CRLF, block + CRLF, body);
      AppendAssoc(statusText + CRLF, block, CRLF);
    }
    ReadLineAppend(statusText, rest);
    ParseFieldsRoundTrip(fields, body);
    assert ReadLine(s) == Some((statusText, rest));
  }

  /** ASCII lower case; field names compare case-insensitively (section 5.1 of RFC 9110). */
  function Lower(s: string): (r: string)
    ensures |r| == |s|
  {
    if s == [] then []
    else [if 'A' <= s[0] <= 'Z' then (s[0] as int + 32) as char else s[0]] + Lower(s[1..])
  }

  /** The value of the first field named `name`, compared case-insensitively. */
  function FieldValue(fields: seq<Field>, name: string): Option<string> {
    if fields == [] then None
    else if Lower(fields[0].name) == Lower(name) then Some(fields[0].value)
    else FieldValue(fields[1..], name)
  }

  /** The declared body length (section 8.6 of RFC 9110): the first Content-Length field, when it is a non-empty digit string. */
  function ContentLength(fields: seq<Field>): Option<nat> {
    match FieldValue(fields, "Content-Length")
    case None => None
    case Some(v) => if v != [] && IsDigits(v) then Some(ParseDecimal(v)) else None
  }
}

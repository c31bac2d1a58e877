/** Hand-built JSON for Kubernetes events, and a reader for it. */
module Json {
  import opened Hosts

  /** `s` with every `c` replaced by `t`. */
  function Replace(s: string, c: char, t: string): string {
    if s == [] then [] else (if s[0] == c then t else [s[0]]) + Replace(s[1..], c, t)
  }

  function EscapeJson(s: string): string {
    Replace(Replace(Replace(Replace(s, '\\', "\\\\"), '"', "\\\""), '\n', "\\n"), '\r', "\\r")
  }

  /** What a single character is written as. */
  function EscapeChar(c: char): string {
    if c == '\\' then "\\\\"
    else if c == '"' then "\\\""
    else if c == '\n' then "\\n"
    else if c == '\r' then "\\r"
    else [c]
  }

  function EscapeEach(s: string): string {
    if s == [] then [] else EscapeChar(s[0]) + EscapeEach(s[1..])
  }

  lemma {:induction false} ReplaceConcat(s: string, t: string, c: char, u: string)
    ensures Replace(s + t, c, u) == Replace(s, c, u) + Replace(t, c, u)
  {
    if s == [] {
      assert s + t == t;
    } else {
      assert (s + t)[1..] == s[1..] + t;
      ReplaceConcat(s[1..], t, c, u);
    }
  }

  lemma EscapeConcat(s: string, t: string)
    ensures EscapeJson(s + t) == EscapeJson(s) + EscapeJson(t)
  {
    ReplaceConcat(s, t, '\\', "\\\\");
    var s1, t1 := Replace(s, '\\', "\\\\"), Replace(t, '\\', "\\\\");
    ReplaceConcat(s1, t1, '"', "\\\"");
    var s2, t2 := Replace(s1, '"', "\\\""), Replace(t1, '"', "\\\"");
    ReplaceConcat(s2, t2, '\n', "\\n");
    ReplaceConcat(Replace(s2, '\n', "\\n"), Replace(t2, '\n', "\\n"), '\r', "\\r");
  }

  lemma ReplaceOne(d: char, c: char, u: string)
    ensures Replace([d], c, u) == if d == c then u else [d]
  {
    assert [d][1..] == [];
  }

  lemma ReplaceTwo(d: char, e: char, c: char, u: string)
    ensures d != c && e != c ==> Replace([d, e], c, u) == [d, e]
  {
    assert [d, e] == [d] + [e];
    ReplaceConcat([d], [e], c, u);
    ReplaceOne(d, c, u);
    ReplaceOne(e, c, u);
  }

  lemma EscapeOne(c: char)
    ensures EscapeJson([c]) == EscapeChar(c)
  {
    ReplaceOne(c, '\\', "\\\\");
    ReplaceOne(c, '"', "\\\"");
    ReplaceOne(c, '\n', "\\n");
    ReplaceOne(c, '\r', "\\r");
    ReplaceTwo('\\', '\\', '"', "\\\"");
    ReplaceTwo('\\', '\\', '\n', "\\n");
    ReplaceTwo('\\', '\\', '\r', "\\r");
    ReplaceTwo('\\', '"', '\n', "\\n");
    ReplaceTwo('\\', '"', '\r', "\\r");
    ReplaceTwo('\\', 'n', '\r', "\\r");
  }

  /** Four replacements over the whole string amount to one per character: no
      replacement touches what an earlier one produced. */
  lemma {:induction false} EscapeIsPerCharacter(s: string)
    ensures EscapeJson(s) == EscapeEach(s)
  {
    if s != [] {
      assert s == [s[0]] + s[1..];
      EscapeConcat([s[0]], s[1..]);
      EscapeOne(s[0]);
      EscapeIsPerCharacter(s[1..]);
    }
  }

  function HexValue(c: char): Option<int> {
    if '0' <= c <= '9' then Some(c as int - '0' as int)
    else if 'a' <= c <= 'f' then Some(c as int - 'a' as int + 10)
    else if 'A' <= c <= 'F' then Some(c as int - 'A' as int + 10)
    else None
  }

  /** The character of a two-character escape. */
  function Unescape(c: char): Option<char> {
    if c == '"' || c == '\\' || c == '/' then Some(c)
    else if c == 'n' then Some('\n') else if c == 'r' then Some('\r') else if c == 't' then Some('\t')
    else if c == 'b' then Some('\U{0008}') else if c == 'f' then Some('\U{000C}')
    else None
  }

  predicate IsControl(c: char) { c < ' ' }

  /** The text of a JSON string body, as section 7 of RFC 8259 reads it: raw
      control characters and quotes are errors. Escapes by code point stand for
      characters outside the surrogate range. */
  function Decode(s: string): Option<string>
    decreases |s|
  {
    if s == [] then Some([])
    else if IsControl(s[0]) || s[0] == '"' then None
    else if s[0] != '\\' then Cons(s[0], Decode(s[1..]))
    else if |s| == 1 then None
    else if s[1] == 'u' then
      if |s| < 6 || CodeUnit(s[2..6]).None? then None
      else Cons(CodeUnit(s[2..6]).value, Decode(s[6..]))
    else if Unescape(s[1]).Some? then Cons(Unescape(s[1]).value, Decode(s[2..]))
    else None
  }

  function Cons(c: char, rest: Option<string>): Option<string> {
    if rest.Some? then Some([c] + rest.value) else None
  }

  function CodeUnit(hex: string): Option<char>
    requires |hex| == 4
  {
    var a, b, c, d := HexValue(hex[0]), HexValue(hex[1]), HexValue(hex[2]), HexValue(hex[3]);
    if a.Some? && b.Some? && c.Some? && d.Some? then
      var n := ((a.value * 16 + b.value) * 16 + c.value) * 16 + d.value;
      if 0 <= n < 0xD800 || 0xE000 <= n < 0x10000 then Some(n as char) else None
    else None
  }

  /** The only control characters are line feeds and carriage returns. */
  predicate Printable(s: string) {
    forall i :: 0 <= i < |s| ==> IsControl(s[i]) ==> s[i] == '\n' || s[i] == '\r'
  }

  lemma DecodeEscaped(c: char, rest: string)
    ensures Decode(EscapeChar(c) + rest)
         == if IsControl(c) && c != '\n' && c != '\r' then None else Cons(c, Decode(rest))
  {
    var s := EscapeChar(c) + rest;
    if |EscapeChar(c)| == 2 {
      assert s[2..] == rest;
    } else {
      assert s[1..] == rest;
    }
  }

  /** Escaping and decoding are inverse exactly on the strings whose only
      control characters are line feeds and carriage returns. */
  lemma {:induction false} EscapeRoundTrip(s: string)
    ensures Decode(EscapeJson(s)) == if Printable(s) then Some(s) else None
  {
    EscapeIsPerCharacter(s);
    if s != [] {
      EscapeRoundTrip(s[1..]);
      EscapeIsPerCharacter(s[1..]);
      DecodeEscaped(s[0], EscapeEach(s[1..]));
      assert s == [s[0]] + s[1..];
      assert Printable(s) <==> Printable(s[1..]) && (IsControl(s[0]) ==> s[0] == '\n' || s[0] == '\r');
    }
  }

  datatype Value = Text(text: string) | Number(number: int)

  type Field = (string, Value)

  function NatText(n: nat): string {
    if n < 10 then [Digit(n)] else NatText(n / 10) + [Digit(n % 10)]
  }

  function IntText(n: int): string {
    if n < 0 then "-" + NatText(-n) else NatText(n)
  }

  /** How many digits `s` begins with. */
  function DigitCount(s: string): (k: nat)
    ensures k <= |s|
  {
    if s == [] || !IsDigit(s[0]) then 0 else 1 + DigitCount(s[1..])
  }

  /** A run of digits without a leading zero, and what follows it. */
  function ReadNat(s: string): Option<(int, string)> {
    var k := DigitCount(s);
    if k == 0 || (k > 1 && s[0] == '0') then None else Some((DecimalValue(s[..k]), s[k..]))
  }

  function ReadInt(s: string): Option<(int, string)> {
    if s != [] && s[0] == '-' then
      var r := ReadNat(s[1..]);
      if r.Some? then Some((-r.value.0, r.value.1)) else None
    else ReadNat(s)
  }

  /** The body of a string up to its closing quote, and what follows it. */
  function ReadBody(s: string): Option<(string, string)>
    decreases |s|
  {
    if s == [] then None
    else if s[0] == '"' then Some(([], s[1..]))
    else
      var n := if s[0] == '\\' then 2 else 1;
      if |s| < n then None
      else
        var r := ReadBody(s[n..]);
        if r.Some? then Some((s[..n] + r.value.0, r.value.1)) else None
  }

  function ReadText(s: string): Option<(string, string)> {
    if s == [] || s[0] != '"' then None
    else
      var r := ReadBody(s[1..]);
      if r.None? || Decode(r.value.0).None? then None else Some((Decode(r.value.0).value, r.value.1))
  }

  function ReadValue(s: string): Option<(Value, string)> {
    if s != [] && s[0] == '"' then
      var r := ReadText(s);
      if r.Some? then Some((Text(r.value.0), r.value.1)) else None
    else
      var r := ReadInt(s);
      if r.Some? then Some((Number(r.value.0), r.value.1)) else None
  }

  function ReadField(s: string): Option<(Field, string)> {
    var key := ReadText(s);
    if key.None? || key.value.1 == [] || key.value.1[0] != ':' then None
    else
      var value := ReadValue(key.value.1[1..]);
      if value.None? then None else Some(((key.value.0, value.value.0), value.value.1))
  }

  /** Fields up to the closing brace, which must end the text. */
  function ReadFields(s: string): Option<seq<Field>>
    decreases |s|
  {
    var r := ReadField(s);
    if r.None? || r.value.1 == [] || |r.value.1| > |s| then None
    else if r.value.1 == "}" then Some([r.value.0])
    else if r.value.1[0] == ',' then
      var rest := ReadFields(r.value.1[1..]);
      if rest.Some? then Some([r.value.0] + rest.value) else None
    else None
  }

  /** A JSON object of texts and integers, without white space. */
  function ReadObject(s: string): Option<seq<Field>> {
    if s == [] || s[0] != '{' then None else ReadFields(s[1..])
  }

  function ValueText(v: Value): string {
    match v
    case Text(text) => "\"" + EscapeJson(text) + "\""
    case Number(number) => IntText(number)
  }

  function FieldText(f: Field): string { "\"" + f.0 + "\":" + ValueText(f.1) }

  function FieldsText(fields: seq<Field>): string
    requires fields != []
  {
    if |fields| == 1 then FieldText(fields[0]) else FieldText(fields[0]) + "," + FieldsText(fields[1..])
  }

  function ObjectText(fields: seq<Field>): string
    requires fields != []
  {
    "{" + FieldsText(fields) + "}"
  }

  lemma {:induction false} NatTextValue(n: nat)
    ensures DecimalValue(NatText(n)) == n
    ensures forall i :: 0 <= i < |NatText(n)| ==> IsDigit(NatText(n)[i])
    ensures |NatText(n)| > 0 && (|NatText(n)| > 1 ==> NatText(n)[0] != '0')
  {
    if n < 10 {
      DigitValue([], n);
      assert [] + [Digit(n)] == NatText(n);
    } else {
      NatTextValue(n / 10);
      DigitValue(NatText(n / 10), n % 10);
      if n / 10 < 10 {
        DigitValue([], n / 10);
      }
    }
  }

  lemma {:induction false} DigitCountExact(s: string, rest: string)
    requires forall i :: 0 <= i < |s| ==> IsDigit(s[i])
    requires rest == [] || !IsDigit(rest[0])
    ensures DigitCount(s + rest) == |s|
  {
    if s == [] {
      assert s + rest == rest;
    } else {
      assert (s + rest)[1..] == s[1..] + rest;
      DigitCountExact(s[1..], rest);
    }
  }

  lemma NatRoundTrip(m: nat, rest: string)
    requires rest == [] || !IsDigit(rest[0])
    ensures ReadNat(NatText(m) + rest) == Some((m, rest))
    ensures NatText(m) != [] && IsDigit(NatText(m)[0])
  {
    NatTextValue(m);
    DigitCountExact(NatText(m), rest);
    var s := NatText(m) + rest;
    assert s[..|NatText(m)|] == NatText(m) && s[|NatText(m)|..] == rest;
  }

  lemma AfterFirst<T>(first: T, s: seq<T>, rest: seq<T>)
    ensures var all := [first] + s + rest;
            all != [] && all[0] == first && all[1..] == s + rest
  {
  }

  lemma IntRoundTrip(n: int, rest: string)
    requires rest == [] || !IsDigit(rest[0])
    ensures ReadInt(IntText(n) + rest) == Some((n, rest))
    ensures IntText(n) != [] && IntText(n)[0] != '"'
  {
    var m := if n < 0 then -n else n;
    NatRoundTrip(m, rest);
    if n < 0 {
      AfterFirst('-', NatText(m), rest);
    } else {
      assert (NatText(m) + rest)[0] == NatText(m)[0];
    }
  }

  lemma BodyStep(c: char, after: string)
    ensures ReadBody(EscapeChar(c) + after)
         == if ReadBody(after).Some? then Some((EscapeChar(c) + ReadBody(after).value.0, ReadBody(after).value.1))
            else None
  {
    var s, n := EscapeChar(c) + after, |EscapeChar(c)|;
    assert s[..n] == EscapeChar(c) && s[n..] == after;
  }

  lemma BodyEnd(rest: string)
    ensures ReadBody("\"" + rest) == Some(([], rest))
  {
    assert ("\"" + rest)[1..] == rest;
  }

  lemma {:induction false} BodyRoundTrip(t: string, rest: string)
    ensures ReadBody(EscapeEach(t) + ("\"" + rest)) == Some((EscapeEach(t), rest))
  {
    if t == [] {
      BodyEnd(rest);
      assert EscapeEach(t) + ("\"" + rest) == "\"" + rest;
    } else {
      var after := EscapeEach(t[1..]) + ("\"" + rest);
      assert EscapeEach(t) + ("\"" + rest) == EscapeChar(t[0]) + after;
      BodyStep(t[0], after);
      BodyRoundTrip(t[1..], rest);
    }
  }

  /** A quoted, escaped text reads back exactly when it is printable. */
  lemma TextRoundTrip(t: string, rest: string)
    ensures ReadText("\"" + EscapeJson(t) + "\"" + rest) == if Printable(t) then Some((t, rest)) else None
  {
    EscapeIsPerCharacter(t);
    EscapeRoundTrip(t);
    BodyRoundTrip(t, rest);
    AfterFirst('"', EscapeEach(t), "\"" + rest);
    assert "\"" + EscapeJson(t) + "\"" + rest == ['"'] + EscapeEach(t) + ("\"" + rest);
  }

  /** A key written as it is: nothing in it needs escaping. */
  ghost predicate PlainKey(key: string) { EscapeJson(key) == key && Printable(key) }

  ghost predicate Readable(v: Value) { v.Text? ==> Printable(v.text) }

  lemma ValueRoundTrip(v: Value, rest: string)
    requires rest != [] && !IsDigit(rest[0])
    ensures ReadValue(ValueText(v) + rest) == if Readable(v) then Some((v, rest)) else None
  {
    match v
    case Text(text) => TextRoundTrip(text, rest);
    case Number(number) => IntRoundTrip(number, rest);
  }

  lemma FieldRoundTrip(f: Field, rest: string)
    requires PlainKey(f.0) && rest != [] && !IsDigit(rest[0])
    ensures ReadField(FieldText(f) + rest) == if Readable(f.1) then Some((f, rest)) else None
  {
    var after := ":" + (ValueText(f.1) + rest);
    assert FieldText(f) + rest == "\"" + EscapeJson(f.0) + "\"" + after;
    TextRoundTrip(f.0, after);
    assert after[1..] == ValueText(f.1) + rest;
    ValueRoundTrip(f.1, rest);
  }

  ghost predicate AllReadable(fields: seq<Field>) {
    forall i :: 0 <= i < |fields| ==> Readable(fields[i].1)
  }

  lemma {:induction false} FieldsRoundTrip(fields: seq<Field>)
    requires fields != [] && forall i :: 0 <= i < |fields| ==> PlainKey(fields[i].0)
    ensures ReadFields(FieldsText(fields) + "}") == if AllReadable(fields) then Some(fields) else None
  {
    var f := fields[0];
    if |fields| == 1 {
      FieldRoundTrip(f, "}");
      assert fields == [f];
    } else {
      var rest := FieldsText(fields[1..]) + "}";
      assert FieldsText(fields) + "}" == FieldText(f) + ("," + rest);
      assert ("," + rest)[1..] == rest;
      FieldRoundTrip(f, "," + rest);
      FieldsRoundTrip(fields[1..]);
      assert fields == [f] + fields[1..];
      assert AllReadable(fields) <==> Readable(f.1) && AllReadable(fields[1..]);
    }
  }

  /** An object with plain keys reads back exactly when its texts are printable. */
  lemma ObjectRoundTrip(fields: seq<Field>)
    requires fields != [] && forall i :: 0 <= i < |fields| ==> PlainKey(fields[i].0)
    ensures ReadObject(ObjectText(fields)) == if AllReadable(fields) then Some(fields) else None
  {
    FieldsRoundTrip(fields);
    assert ObjectText(fields)[1..] == FieldsText(fields) + "}";
  }

  /** The event fields the agent extracts; each may be absent. */
  datatype K8sEventFields = K8sEventFields(reason: Option<string>, message: Option<string>, eventType: Option<string>,
                                           count: Option<int>, kind: Option<string>, name: Option<string>,
                                           namespace: Option<string>)

  function EventFields(e: K8sEventFields): seq<Field> {
    [("reason", Text(Or(e.reason, ""))), ("message", Text(Or(e.message, ""))),
     ("type", Text(Or(e.eventType, "Normal"))),
     ("count", Number(Or(e.count, 1))), ("involved_kind", Text(Or(e.kind, ""))),
     ("involved_name", Text(Or(e.name, ""))),
     ("involved_namespace", Text(Or(e.namespace, "")))]
  }

  function BuildEventData(e: K8sEventFields): string {
    ObjectText(EventFields(e))
  }

  lemma {:induction false} PlainText(s: string)
    requires forall i :: 0 <= i < |s| ==> s[i] > '"' && s[i] != '\\'
    ensures EscapeEach(s) == s
  {
    if s != [] {
      PlainText(s[1..]);
      assert s == [s[0]] + s[1..];
    }
  }

  lemma KeysArePlain(e: K8sEventFields, i: nat)
    requires i < 7
    ensures PlainKey(EventFields(e)[i].0)
  {
    var key := EventFields(e)[i].0;
    PlainText(key);
    EscapeIsPerCharacter(key);
  }

  /** The fields of the object, name by name; what is absent has its default. */
  ghost predicate ReadsAs(fields: seq<Field>, e: K8sEventFields) {
    && |fields| == 7
    && fields[0] == ("reason", Text(if e.reason.Some? then e.reason.value else ""))
    && fields[1] == ("message", Text(if e.message.Some? then e.message.value else ""))
    && fields[2] == ("type", Text(if e.eventType.Some? then e.eventType.value else "Normal"))
    && fields[3] == ("count", Number(if e.count.Some? then e.count.value else 1))
    && fields[4] == ("involved_kind", Text(if e.kind.Some? then e.kind.value else ""))
    && fields[5] == ("involved_name", Text(if e.name.Some? then e.name.value else ""))
    && fields[6] == ("involved_namespace", Text(if e.namespace.Some? then e.namespace.value else ""))
  }

  ghost predicate PrintableIfAny(text: Option<string>) { text.Some? ==> Printable(text.value) }

  ghost predicate PrintableEvent(e: K8sEventFields) {
    && PrintableIfAny(e.reason) && PrintableIfAny(e.message) && PrintableIfAny(e.eventType)
    && PrintableIfAny(e.kind) && PrintableIfAny(e.name) && PrintableIfAny(e.namespace)
  }

  lemma EventReadable(e: K8sEventFields)
    ensures AllReadable(EventFields(e)) <==> PrintableEvent(e)
  {
    var fields := EventFields(e);
    assert Printable("") && Printable("Normal");
    if AllReadable(fields) {
      assert forall i :: 0 <= i < 7 ==> Readable(fields[i].1);
      assert Readable(fields[0].1) && Readable(fields[1].1) && Readable(fields[2].1);
      assert Readable(fields[4].1) && Readable(fields[5].1) && Readable(fields[6].1);
    }
  }

  lemma EventReadsAs(e: K8sEventFields)
    ensures ReadsAs(EventFields(e), e)
  {
  }

  lemma EventObject(e: K8sEventFields)
    ensures ReadObject(BuildEventData(e)) == if AllReadable(EventFields(e)) then Some(EventFields(e)) else None
  {
    forall i | 0 <= i < |EventFields(e)| ensures PlainKey(EventFields(e)[i].0) {
      KeysArePlain(e, i);
    }
    ObjectRoundTrip(EventFields(e));
  }

  /** Every field of a built event object decodes back to what went in, absent
      fields to their defaults, exactly when all of them are printable;
      otherwise the object is no valid JSON. */
  lemma EventDataRoundTrip(e: K8sEventFields)
    ensures var fields := ReadObject(BuildEventData(e));
            if PrintableEvent(e) then fields.Some? && ReadsAs(fields.value, e) else fields.None?
  {
    EventObject(e);
    EventReadable(e);
    EventReadsAs(e);
  }
}

/** The event line sent back to analysisd: an escaped location field, then the body. */
module WazuhEvent {
  import opened Wrappers

  const INTEGRATION_NAME: string := "opencti"

  /** s.replace(c, r) for a single character. */
  function Replace(s: string, c: char, r: string): string {
    if s == "" then "" else (if s[0] == c then r else [s[0]]) + Replace(s[1..], c, r)
  }

  /** The source's two replacements, the bar first. */
  function Escape(location: string): string {
    Replace(Replace(location, '|', "||"), ':', "|:")
  }

  function Code(c: char): string {
    if c == '|' then "||" else if c == ':' then "|:" else [c]
  }

  function Coded(s: string): string {
    if s == "" then "" else Code(s[0]) + Coded(s[1..])
  }

  lemma {:induction false} ReplaceAppends(a: string, b: string, c: char, r: string)
    ensures Replace(a + b, c, r) == Replace(a, c, r) + Replace(b, c, r)
  {
    if a == "" {
      assert a + b == b;
    } else {
      assert (a + b)[0] == a[0] && (a + b)[1..] == a[1..] + b;
      ReplaceAppends(a[1..], b, c, r);
    }
  }

  /** One replacement after the other is a code of single characters. */
  lemma {:induction false} EscapeIsACode(s: string)
    ensures Escape(s) == Coded(s)
  {
    if s != "" {
      EscapeIsACode(s[1..]);
      var first := if s[0] == '|' then "||" else [s[0]];
      ReplaceAppends(first, Replace(s[1..], '|', "||"), ':', "|:");
      ReplaceOne(s[0], first);
    }
  }

  lemma {:induction false} ReplaceOne(c: char, first: string)
    requires first == if c == '|' then "||" else [c]
    ensures Replace(first, ':', "|:") == Code(c)
  {
    assert first[1..] == if c == '|' then "|" else "";
    if c == '|' { assert "|"[1..] == ""; }
  }

  // ----------------------------------------------------------------------- reading it back

  /** Undo the code: a bar stands for the character after it. */
  function Decoded(s: string): string {
    if s == "" then ""
    else if s[0] == '|' && |s| > 1 then [s[1]] + Decoded(s[2..])
    else [s[0]] + Decoded(s[1..])
  }

  /** Where the first unescaped colon is, or |s|. */
  function FieldEnd(s: string): (n: nat)
    ensures n <= |s|
  {
    if s == "" || s[0] == ':' then 0
    else if s[0] == '|' && |s| > 1 then 2 + FieldEnd(s[2..])
    else 1 + FieldEnd(s[1..])
  }

  predicate Plain(s: string) {
    forall i :: 0 <= i < |s| ==> s[i] != '|' && s[i] != ':'
  }

  /** Decoding recovers every location, whatever follows it. */
  lemma {:induction false} DecodedCoded(s: string, rest: string)
    ensures Decoded(Coded(s) + rest) == s + Decoded(rest)
    ensures FieldEnd(Coded(s) + rest) == |Coded(s)| + FieldEnd(rest)
  {
    hide Decoded, FieldEnd, Code;
    if s == "" {
      assert Coded(s) + rest == rest;
    } else {
      DecodedCoded(s[1..], rest);
      var tail := Coded(s[1..]) + rest;
      assert Coded(s) + rest == Code(s[0]) + tail;
      OneCode(s[0], tail);
      assert [s[0]] + (s[1..] + Decoded(rest)) == s + Decoded(rest);
    }
  }

  lemma {:induction false} OneCode(c: char, tail: string)
    ensures Decoded(Code(c) + tail) == [c] + Decoded(tail)
    ensures FieldEnd(Code(c) + tail) == |Code(c)| + FieldEnd(tail)
  {
    var s := Code(c) + tail;
    assert s[|Code(c)|..] == tail;
  }

  lemma {:induction false} PlainReads(p: string, rest: string)
    requires Plain(p) && (rest == "" || rest[0] == ':')
    ensures Decoded(p) == p && FieldEnd(p + rest) == |p|
  {
    if p == "" {
      assert p + rest == rest;
    } else {
      PlainReads(p[1..], rest);
      assert (p + rest)[0] == p[0] && (p + rest)[1..] == p[1..] + rest;
      assert p == [p[0]] + p[1..];
    }
  }

  // ------------------------------------------------------------------------------ framing

  datatype Agent = Agent(id: string, name: string, ip: string)

  function Location(a: Agent): string {
    "[" + a.id + "] (" + a.name + ") " + a.ip
  }

  /** The location an event carries; the manager's own events carry none. */
  function Carried(agent: Option<Agent>): Option<string> {
    if agent.None? || agent.value.id == "000" then None else Some(Location(agent.value))
  }

  function Field(location: Option<string>): string {
    if location.None? then INTEGRATION_NAME else Escape(location.value) + "->" + INTEGRATION_NAME
  }

  /** send_event's line. */
  function Frame(location: Option<string>, body: string): string {
    "1:" + Field(location) + ":" + body
  }

  /** Read a line back: the field up to the first unescaped colon, decoded, and the rest. */
  function Parse(line: string): Option<(Option<string>, string)> {
    if |line| < 2 || line[..2] != "1:" then None
    else
      var rest := line[2..];
      var n := FieldEnd(rest);
      var field := Decoded(rest[..n]);
      var suffix := "->" + INTEGRATION_NAME;
      if n == |rest| then None
      else if field == INTEGRATION_NAME then Some((None, rest[n + 1..]))
      else if |field| >= |suffix| && field[|field| - |suffix|..] == suffix then
        Some((Some(field[..|field| - |suffix|]), rest[n + 1..]))
      else None
  }

  lemma {:induction false} FieldReads(location: Option<string>, body: string)
    ensures FieldEnd(Field(location) + (":" + body)) == |Field(location)|
    ensures Decoded(Field(location)) == if location.None? then INTEGRATION_NAME
                                        else location.value + "->" + INTEGRATION_NAME
  {
    hide Decoded, FieldEnd, Coded, Escape;
    var suffix := "->" + INTEGRATION_NAME;
    PlainReads(suffix, ":" + body);
    PlainReads(INTEGRATION_NAME, ":" + body);
    if location.Some? {
      var c := Coded(location.value);
      EscapeIsACode(location.value);
      DecodedCoded(location.value, suffix);
      DecodedCoded(location.value, suffix + (":" + body));
      assert location.value + suffix == location.value + "->" + INTEGRATION_NAME;
      Regroup(c, suffix, ":" + body);
    }
  }

  lemma Regroup(a: string, suffix: string, c: string)
    requires suffix == "->" + INTEGRATION_NAME
    ensures a + suffix + c == a + (suffix + c)
    ensures a + "->" + INTEGRATION_NAME == a + suffix
  {
  }

  /** Every line reads back as the location and the body it was made of, whatever characters they hold. */
  lemma FrameRoundTrip(location: Option<string>, body: string)
    ensures Parse(Frame(location, body)) == Some((location, body))
  {
    hide Decoded, FieldEnd, Field;
    var line, field := Frame(location, body), Field(location);
    var rest := field + (":" + body);
    FrameSplits(line, field, body, rest);
    FieldReads(location, body);
    assert rest[..|field|] == field && rest[|field| + 1..] == body;
    if location.Some? { SuffixSplits(location.value, Decoded(field)); }
  }

  lemma FrameSplits(line: string, field: string, body: string, rest: string)
    requires line == "1:" + field + ":" + body && rest == field + (":" + body)
    ensures |line| >= 2 && line[..2] == "1:" && line[2..] == rest
  {
    assert line == "1:" + rest;
  }

  lemma SuffixSplits(location: string, field: string)
    requires field == location + "->" + INTEGRATION_NAME
    ensures var suffix := "->" + INTEGRATION_NAME;
            && field != INTEGRATION_NAME && |field| >= |suffix|
            && field[|field| - |suffix|..] == suffix && field[..|field| - |suffix|] == location
  {
    assert field == location + ("->" + INTEGRATION_NAME);
  }

  /** So no two events share a line. */
  lemma FrameInjective(l1: Option<string>, b1: string, l2: Option<string>, b2: string)
    requires Frame(l1, b1) == Frame(l2, b2)
    ensures l1 == l2 && b1 == b2
  {
    FrameRoundTrip(l1, b1);
    FrameRoundTrip(l2, b2);
  }

  /** What send_event writes: no location for the manager, which has no agent or number 000. */
  function Line(agent: Option<Agent>, body: string): string {
    Frame(Carried(agent), body)
  }

  /**
   The reader learns the body, and who sent it: an unlocated line is the manager's, any other holds the
   agent's number, name and address in this order.
   */
  lemma LineTellsTheSender(agent: Option<Agent>, body: string)
    ensures Parse(Line(agent, body)).Some? && Parse(Line(agent, body)).value.1 == body
    ensures var location := Parse(Line(agent, body)).value.0;
            && (location.None? <==> agent.None? || agent.value.id == "000")
            && (location.Some? ==> var a := agent.value; location.value == "[" + a.id + "] (" + a.name + ") " + a.ip)
  {
    FrameRoundTrip(Carried(agent), body);
  }

  /** A number without a bracket can be read off the location. */
  lemma LocationTellsTheNumber(a: Agent, b: Agent)
    requires ']' !in a.id && ']' !in b.id && Location(a) == Location(b)
    ensures a.id == b.id
  {
    var s := Location(a);
    assert s[1 + |a.id|] == ']' && s[1..1 + |a.id|] == a.id;
    assert s[1 + |b.id|] == ']' && s[1..1 + |b.id|] == b.id;
  }

  lemma {:induction false} PlainIsItsCode(s: string)
    requires Plain(s)
    ensures Coded(s) == s
  {
    if s != "" {
      PlainIsItsCode(s[1..]);
      assert s == [s[0]] + s[1..];
    }
  }

  /** The line as it is written: the manager's with the integration's name alone, an agent's behind its location. */
  lemma LineAsWritten(agent: Option<Agent>, body: string)
    ensures agent.None? || agent.value.id == "000" ==> Line(agent, body) == "1:opencti:" + body
    ensures agent.Some? && agent.value.id != "000" && Plain(Location(agent.value)) ==>
              Line(agent, body) == "1:" + ("[" + agent.value.id + "] (" + agent.value.name + ") " + agent.value.ip)
                                   + "->opencti" + ":" + body
  {
    hide Escape, Coded;
    if agent.Some? && agent.value.id != "000" && Plain(Location(agent.value)) {
      var location := Location(agent.value);
      EscapeIsACode(location);
      PlainIsItsCode(location);
      assert "1:" + (location + "->" + INTEGRATION_NAME) == "1:" + location + "->opencti" by {
        assert "->" + INTEGRATION_NAME == "->opencti";
      }
    } else {
      assert "1:" + INTEGRATION_NAME + ":" == "1:opencti:";
    }
  }
}

/**
 * The verbatim material section of the licence document
 * (scripts/generate-third-party-licenses.py, the end of render_document), and a reader that recovers the
 * exact bodies from it by their stated byte lengths.
 */
module LicenseDocument {
  import opened Basics
  import opened LicenseMaterial

  const DIGEST_LABEL := "MATERIAL SHA-256: "
  const LENGTH_LABEL := "MATERIAL BYTE LENGTH: "
  const APPLIES := "Applies to:"
  const BEGIN := "----- BEGIN VERBATIM BYTES -----"
  const END := "----- END VERBATIM BYTES -----"

  datatype Entry = Entry(digest: string, group: Group)

  function AttributionLine(a: Attribution): string {
    "- " + a.component + "  " + a.kind + "  " + a.path
  }

  function AttributionLines(attributions: seq<Attribution>): (lines: seq<string>)
    ensures |lines| == |attributions|
    ensures forall i | 0 <= i < |lines| :: lines[i] == AttributionLine(attributions[i])
  {
    seq(|attributions|, i requires 0 <= i < |attributions| => AttributionLine(attributions[i]))
  }

  predicate EndsLine(s: string) { s != "" && s[|s| - 1] == '\n' }

  /** The body as one list element: the join supplies a final newline, so an existing one is dropped. */
  function BodyLine(data: string): string {
    if EndsLine(data) then data[..|data| - 1] else data
  }

  function EntryLines(e: Entry): (lines: seq<string>)
  {
    [DIGEST_LABEL + e.digest, LENGTH_LABEL + Decimal(|e.group.data|), APPLIES]
    + AttributionLines(e.group.attributions)
    + [BEGIN, BodyLine(e.group.data), END, ""]
  }

  /** Joining with newlines and adding a last one puts a newline after every element. */
  function Unlines(lines: seq<string>): string {
    if lines == [] then "" else lines[0] + "\n" + Unlines(lines[1..])
  }

  function SectionLines(entries: seq<Entry>): seq<string> {
    if entries == [] then [] else EntryLines(entries[0]) + SectionLines(entries[1..])
  }

  function Render(entries: seq<Entry>): string {
    Unlines(SectionLines(entries))
  }

  method AppendEntry(lines: seq<string>, e: Entry) returns (extended: seq<string>)
    ensures extended == lines + EntryLines(e)
  {
    var head := [DIGEST_LABEL + e.digest, LENGTH_LABEL + Decimal(|e.group.data|), APPLIES];
    extended := lines + head;
    var all := AttributionLines(e.group.attributions);
    for i := 0 to |e.group.attributions|
      invariant extended == lines + head + all[..i]
    {
      extended := extended + [AttributionLine(e.group.attributions[i])];
    }
    assert all[..|all|] == all;
    extended := extended + [BEGIN, BodyLine(e.group.data), END, ""];
  }

  /** The section as the generator builds it, appending to one list. */
  method RenderMaterial(entries: seq<Entry>) returns (text: string)
    ensures text == Render(entries)
  {
    var lines: seq<string> := [];
    for k := 0 to |entries|
      invariant lines + SectionLines(entries[k..]) == SectionLines(entries)
    {
      SectionUnfolds(lines, entries, k);
      lines := AppendEntry(lines, entries[k]);
    }
    assert lines == lines + SectionLines(entries[|entries|..]);
    text := Unlines(lines);
  }

  lemma SectionUnfolds(lines: seq<string>, entries: seq<Entry>, k: nat)
    requires k < |entries|
    ensures lines + SectionLines(entries[k..]) == lines + EntryLines(entries[k]) + SectionLines(entries[k + 1..])
  {
    assert entries[k..][1..] == entries[k + 1..];
    Associate(lines, EntryLines(entries[k]), SectionLines(entries[k + 1..]));
  }

  lemma Associate(a: seq<string>, b: seq<string>, c: seq<string>)
    ensures a + (b + c) == a + b + c
  {
  }

  // ----- reading it back

  datatype Read = Read(digest: string, attributionLines: seq<string>, data: string)

  /** The text up to the first newline, and what follows it. */
  function TakeLine(s: string): (r: Option<(string, string)>)
    ensures r.Some? ==> |r.value.1| < |s|
  {
    if s == "" then None
    else if s[0] == '\n' then Some(("", s[1..]))
    else
      match TakeLine(s[1..])
      case None => None
      case Some((line, rest)) => Some(([s[0]] + line, rest))
  }

  function TakeLabel(tag: string, s: string): (r: Option<(string, string)>)
    ensures r.Some? ==> |r.value.1| < |s|
  {
    match TakeLine(s)
    case Some((line, rest)) => if tag <= line then Some((line[|tag|..], rest)) else None
    case None => None
  }

  /** The lines before the first BEGIN line, and what follows that line. */
  function TakeUntilBegin(s: string): (r: Option<(seq<string>, string)>)
    ensures r.Some? ==> |r.value.1| < |s|
    decreases |s|
  {
    match TakeLine(s)
    case None => None
    case Some((line, rest)) =>
      if line == BEGIN then Some(([], rest))
      else
        match TakeUntilBegin(rest)
        case None => None
        case Some((lines, after)) => Some(([line] + lines, after))
  }

  function ParseDecimal(s: string): Option<nat> {
    if s == "" || !IsDigit(s[|s| - 1]) then None
    else
      var digit := s[|s| - 1] as int - '0' as int;
      if |s| == 1 then Some(digit)
      else
        match ParseDecimal(s[..|s| - 1])
        case None => None
        case Some(n) => Some(10 * n + digit)
  }

  /** Read exactly the stated number of bytes after the BEGIN line; only a body without a final newline is
      followed by one that is not its own. */
  function TakeBody(s: string, length: nat): (r: Option<(string, string)>)
    ensures r.Some? ==> |r.value.1| <= |s|
  {
    if |s| < length then None
    else if EndsLine(s[..length]) then Some((s[..length], s[length..]))
    else if length < |s| && s[length] == '\n' then Some((s[..length], s[length + 1..]))
    else None
  }

  /** The digest and the stated length, up to and including the "Applies to:" line. */
  function ReadHeader(s: string): (r: Option<(string, nat, string)>)
    ensures r.Some? ==> |r.value.2| < |s|
  {
    match TakeLabel(DIGEST_LABEL, s)
    case None => None
    case Some((digest, s1)) =>
      match TakeLabel(LENGTH_LABEL, s1)
      case None => None
      case Some((decimal, s2)) =>
        var length := ParseDecimal(decimal);
        var applies := TakeLine(s2);
        if length.None? || applies.None? || applies.value.0 != APPLIES then None
        else Some((digest, length.value, applies.value.1))
  }

  /** The END line and the blank line after a body. */
  function ReadFooter(s: string): (r: Option<string>)
    ensures r.Some? ==> |r.value| < |s|
  {
    match TakeLine(s)
    case None => None
    case Some((end, s1)) =>
      match TakeLine(s1)
      case None => None
      case Some((blank, rest)) => if end == END && blank == "" then Some(rest) else None
  }

  function ReadEntry(s: string): (r: Option<(Read, string)>)
    ensures r.Some? ==> |r.value.1| < |s|
  {
    match ReadHeader(s)
    case None => None
    case Some((digest, length, s1)) =>
      match TakeUntilBegin(s1)
      case None => None
      case Some((lines, s2)) =>
        match TakeBody(s2, length)
        case None => None
        case Some((data, s3)) =>
          match ReadFooter(s3)
          case None => None
          case Some(rest) => Some((Read(digest, lines, data), rest))
  }

  function ReadSection(s: string): (r: Option<seq<Read>>)
    decreases |s|
  {
    if s == "" then Some([])
    else
      match ReadEntry(s)
      case None => None
      case Some((entry, rest)) =>
        match ReadSection(rest)
        case None => None
        case Some(entries) => Some([entry] + entries)
  }

  // ----- the round trip

  predicate OneLine(s: string) { '\n' !in s }

  /** Digests and names are single lines; bodies are arbitrary. */
  predicate SingleLineNames(e: Entry) {
    && OneLine(e.digest)
    && forall a | a in e.group.attributions :: OneLine(a.component) && OneLine(a.kind) && OneLine(a.path)
  }

  function Expected(e: Entry): Read {
    Read(e.digest, AttributionLines(e.group.attributions), e.group.data)
  }

  function ExpectedAll(entries: seq<Entry>): (all: seq<Read>)
    ensures |all| == |entries| && forall i | 0 <= i < |entries| :: all[i] == Expected(entries[i])
  {
    if entries == [] then [] else [Expected(entries[0])] + ExpectedAll(entries[1..])
  }

  lemma {:induction false} TakeLineInverts(line: string, rest: string)
    requires OneLine(line)
    ensures TakeLine(line + "\n" + rest) == Some((line, rest))
  {
    var s := line + "\n" + rest;
    if line == "" {
      assert s[1..] == rest;
    } else {
      assert s[1..] == line[1..] + "\n" + rest;
      TakeLineInverts(line[1..], rest);
      assert [line[0]] + line[1..] == line;
    }
  }

  lemma TakeLabelInverts(tag: string, value: string, rest: string)
    requires OneLine(tag) && OneLine(value)
    ensures TakeLabel(tag, tag + value + "\n" + rest) == Some((value, rest))
  {
    TakeLineInverts(tag + value, rest);
    assert (tag + value)[|tag|..] == value;
  }

  lemma {:induction false} TakeUntilBeginInverts(lines: seq<string>, rest: string)
    requires forall l | l in lines :: OneLine(l) && l != BEGIN
    ensures TakeUntilBegin(Unlines(lines) + BEGIN + "\n" + rest) == Some((lines, rest))
  {
    var s := Unlines(lines) + BEGIN + "\n" + rest;
    if lines == [] {
      assert s == BEGIN + "\n" + rest;
      TakeLineInverts(BEGIN, rest);
    } else {
      var tail := Unlines(lines[1..]) + BEGIN + "\n" + rest;
      assert s == lines[0] + "\n" + tail;
      assert lines[0] in lines;
      TakeLineInverts(lines[0], tail);
      TakeUntilBeginInverts(lines[1..], rest);
      assert [lines[0]] + lines[1..] == lines;
    }
  }

  lemma {:induction false} ParseDecimalInverts(n: nat)
    ensures ParseDecimal(Decimal(n)) == Some(n)
  {
    if n >= 10 {
      ParseDecimalInverts(n / 10);
      var text := Decimal(n);
      assert text[..|text| - 1] == Decimal(n / 10);
    }
  }

  /** The stated length cuts out the body whether or not it ends its last line, and whatever it contains. */
  lemma TakeBodyInverts(data: string, rest: string)
    ensures TakeBody(BodyLine(data) + "\n" + rest, |data|) == Some((data, rest))
  {
    var s := BodyLine(data) + "\n" + rest;
    if EndsLine(data) {
      assert BodyLine(data) + "\n" == data;
      assert s == data + rest;
    }
    assert s[..|data|] == data;
  }

  lemma {:induction false} UnlinesConcat(a: seq<string>, b: seq<string>)
    ensures Unlines(a + b) == Unlines(a) + Unlines(b)
  {
    if a == [] {
      assert a + b == b;
    } else {
      assert (a + b)[1..] == a[1..] + b;
      UnlinesConcat(a[1..], b);
    }
  }

  lemma UnlinesThen(line: string, lines: seq<string>, rest: string)
    ensures Unlines([line] + lines) + rest == line + "\n" + (Unlines(lines) + rest)
  {
    assert ([line] + lines)[1..] == lines;
  }

  function FooterText(rest: string): string {
    END + "\n" + ("" + "\n" + rest)
  }

  function HeaderText(e: Entry, rest: string): string {
    DIGEST_LABEL + e.digest + "\n" +
    (LENGTH_LABEL + Decimal(|e.group.data|) + "\n" + (APPLIES + "\n" + rest))
  }

  function EntryText(e: Entry, rest: string): string {
    HeaderText(e,
      Unlines(AttributionLines(e.group.attributions)) + BEGIN + "\n" +
      (BodyLine(e.group.data) + "\n" + FooterText(rest)))
  }

  lemma EntryTextIsUnlines(e: Entry, rest: string)
    ensures Unlines(EntryLines(e)) + rest == EntryText(e, rest)
  {
    var a, b := DIGEST_LABEL + e.digest, LENGTH_LABEL + Decimal(|e.group.data|);
    var middle := AttributionLines(e.group.attributions);
    var body := BodyLine(e.group.data);
    LinesOfParts(a, b, APPLIES, middle, BEGIN, body, END, "", rest);
  }

  lemma LinesOfFoot(p: string, q: string, r: string, t: string, rest: string)
    ensures Unlines([p, q, r, t]) + rest == p + "\n" + (q + "\n" + (r + "\n" + (t + "\n" + rest)))
  {
    UnlinesThen(t, [], rest);
    assert [t] + [] == [t] && Unlines([]) + rest == rest;
    UnlinesThen(r, [t], rest);
    assert [r] + [t] == [r, t];
    UnlinesThen(q, [r, t], rest);
    assert [q] + [r, t] == [q, r, t];
    UnlinesThen(p, [q, r, t], rest);
    assert [p] + [q, r, t] == [p, q, r, t];
  }

  lemma LinesOfParts(a: string, b: string, c: string, middle: seq<string>,
                     p: string, q: string, r: string, t: string, rest: string)
    ensures Unlines([a, b, c] + middle + [p, q, r, t]) + rest ==
            a + "\n" + (b + "\n" + (c + "\n" +
              (Unlines(middle) + p + "\n" + (q + "\n" + (r + "\n" + (t + "\n" + rest))))))
  {
    var foot := [p, q, r, t];
    var tail := q + "\n" + (r + "\n" + (t + "\n" + rest));
    LinesOfFoot(p, q, r, t, rest);
    UnlinesConcat(middle, foot);
    LinesOfHead(a, b, c, middle + foot, rest);
    assert [a, b, c] + (middle + foot) == [a, b, c] + middle + foot;
    Associate4(Unlines(middle), Unlines(foot), rest, p + "\n", tail);
    assert Unlines(middle) + p + "\n" == Unlines(middle) + (p + "\n");
  }

  lemma Associate4(m: string, f: string, rest: string, p: string, tail: string)
    requires f + rest == p + tail
    ensures m + f + rest == m + p + tail
  {
    assert m + f + rest == m + (f + rest);
    assert m + p + tail == m + (p + tail);
  }

  lemma LinesOfHead(a: string, b: string, c: string, inner: seq<string>, rest: string)
    ensures Unlines([a, b, c] + inner) + rest == a + "\n" + (b + "\n" + (c + "\n" + (Unlines(inner) + rest)))
  {
    UnlinesThen(c, inner, rest);
    UnlinesThen(b, [c] + inner, rest);
    UnlinesThen(a, [b] + ([c] + inner), rest);
    assert [a] + ([b] + ([c] + inner)) == [a, b, c] + inner;
  }

  lemma ReadHeaderInverts(e: Entry, rest: string)
    requires OneLine(e.digest)
    ensures ReadHeader(HeaderText(e, rest)) == Some((e.digest, |e.group.data|, rest))
  {
    var s2 := APPLIES + "\n" + rest;
    var s1 := LENGTH_LABEL + Decimal(|e.group.data|) + "\n" + s2;
    TakeLabelInverts(DIGEST_LABEL, e.digest, s1);
    assert OneLine(Decimal(|e.group.data|)) by {
      assert !IsDigit('\n');
    }
    TakeLabelInverts(LENGTH_LABEL, Decimal(|e.group.data|), s2);
    ParseDecimalInverts(|e.group.data|);
    TakeLineInverts(APPLIES, rest);
  }

  lemma ReadFooterInverts(rest: string)
    ensures ReadFooter(FooterText(rest)) == Some(rest)
  {
    TakeLineInverts(END, "" + "\n" + rest);
    TakeLineInverts("", rest);
  }

  lemma ReadEntryInverts(e: Entry, rest: string)
    requires SingleLineNames(e)
    ensures ReadEntry(EntryText(e, rest)) == Some((Expected(e), rest))
  {
    var s2 := BodyLine(e.group.data) + "\n" + FooterText(rest);
    var s1 := Unlines(AttributionLines(e.group.attributions)) + BEGIN + "\n" + s2;
    ReadHeaderInverts(e, s1);
    AttributionLinesAreLines(e);
    TakeUntilBeginInverts(AttributionLines(e.group.attributions), s2);
    TakeBodyInverts(e.group.data, FooterText(rest));
    ReadFooterInverts(rest);
  }

  lemma AttributionLinesAreLines(e: Entry)
    requires SingleLineNames(e)
    ensures forall l | l in AttributionLines(e.group.attributions) :: OneLine(l) && l != BEGIN
  {
    var lines := AttributionLines(e.group.attributions);
    forall i | 0 <= i < |lines|
      ensures OneLine(lines[i]) && lines[i] != BEGIN
    {
      var a := e.group.attributions[i];
      assert a in e.group.attributions;
      assert lines[i][1] == ' ' && BEGIN[1] == '-';
    }
  }

  /** Reading the rendered section gives back every digest, every attribution line and the exact bytes of
      every body, including bodies without a final newline and bodies that contain the END marker. */
  lemma {:induction false} SectionRoundTrips(entries: seq<Entry>)
    requires forall e | e in entries :: SingleLineNames(e)
    ensures ReadSection(Render(entries)) == Some(ExpectedAll(entries))
  {
    if entries != [] {
      var e := entries[0];
      var rest := Render(entries[1..]);
      assert SingleLineNames(e);
      UnlinesConcat(EntryLines(e), SectionLines(entries[1..]));
      EntryTextIsUnlines(e, rest);
      assert Render(entries) == EntryText(e, rest);
      ReadEntryInverts(e, rest);
      SectionRoundTrips(entries[1..]);
    }
  }
}

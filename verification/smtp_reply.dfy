/** The SMTP reply writer (`Ext3.WriteSMTP`/`WriteLineSMTP`): a status code and some
    text lines become the lines written to the connection, following the multi-line
    reply convention of section 4.2.1 of RFC 5321 ("250-first", ..., "250 last"). */
module SmtpReply {
  import opened Wrappers

  /** The members of `SMTPStatusCode` the engine uses, with their numeric values. */
  datatype StatusCode =
    | ServiceReady                          // 220
    | ServiceClosingTransmissionChannel     // 221
    | Ok                                    // 250
    | CannotVerifyUserWillAttemptDelivery   // 252
    | StartMailInput                        // 354
    | CommandUnrecognized                   // 500
    | SyntaxError                           // 501
    | BadCommandSequence                    // 503
  {
    function Value(): (v: nat)
      ensures 200 <= v <= 599
    {
      match this
      case ServiceReady => 220
      case ServiceClosingTransmissionChannel => 221
      case Ok => 250
      case CannotVerifyUserWillAttemptDelivery => 252
      case StartMailInput => 354
      case CommandUnrecognized => 500
      case SyntaxError => 501
      case BadCommandSequence => 503
    }
  }

  function Digit(d: nat): (c: char)
    requires d < 10
    ensures '0' <= c <= '9'
  {
    ('0' as int + d) as char
  }

  function DigitValue(c: char): int {
    c as int - '0' as int
  }

  /** `((Int32) StatusCode).ToString()` for a three-digit code. */
  function CodeString(c: nat): (r: string)
    requires 100 <= c <= 999
    ensures |r| == 3
    ensures forall k :: 0 <= k < 3 ==> '0' <= r[k] <= '9'
    ensures 100 * DigitValue(r[0]) + 10 * DigitValue(r[1]) + DigitValue(r[2]) == c
  {
    [Digit(c / 100), Digit((c / 10) % 10), Digit(c % 10)]
  }

  /** `Where(line => line.IsNotNullOrEmpty())` */
  predicate IsNotNullOrEmpty(line: Option<string>) {
    line.Some? && line.value != []
  }

  function NonEmptyLines(lines: seq<Option<string>>): (r: seq<string>)
    ensures |r| <= |lines|
    ensures forall k :: 0 <= k < |r| ==> r[k] != []
  {
    if lines == [] then []
    else if IsNotNullOrEmpty(lines[0]) then [lines[0].value] + NonEmptyLines(lines[1..])
    else NonEmptyLines(lines[1..])
  }

  lemma {:induction false} NonEmptyLinesAppend(a: seq<Option<string>>, b: seq<Option<string>>)
    ensures NonEmptyLines(a + b) == NonEmptyLines(a) + NonEmptyLines(b)
  {
    if a == [] {
      assert a + b == b;
    } else {
      assert (a + b)[1..] == a[1..] + b;
      NonEmptyLinesAppend(a[1..], b);
    }
  }

  /** The filter keeps exactly the present, non-empty lines. */
  lemma {:induction false} NonEmptyLinesMembers(lines: seq<Option<string>>, x: string)
    ensures x in NonEmptyLines(lines) <==> x != [] && Some(x) in lines
  {
    if lines != [] {
      NonEmptyLinesMembers(lines[1..], x);
      assert lines == [lines[0]] + lines[1..];
    }
  }

  /** The marker after the code: '-' while more lines follow, ' ' on the last. */
  function Marker(more: bool): char {
    if more then '-' else ' '
  }

  /** The lambda of `ForEachCounted((i, response) => ...)`, with the counter `i`
      running 1, 2, ..., n over the `n` filtered lines. Each line is a pair of the
      status code's digits and the text. */
  function Counted(ls: seq<(string, string)>, i: nat, n: nat): (r: seq<string>)
    requires 1 <= i && i + |ls| == n + 1
    ensures |r| == |ls|
    ensures forall k :: 0 <= k < |ls| ==> r[k] == ls[k].0 + [Marker(k < |ls| - 1)] + ls[k].1
    decreases |ls|
  {
    if ls == [] then []
    else [ls[0].0 + [Marker(i < n)] + ls[0].1] + Counted(ls[1..], i + 1, n)
  }

  function WithCode(code: StatusCode, ls: seq<string>): (r: seq<(string, string)>)
    ensures |r| == |ls|
    ensures forall k :: 0 <= k < |ls| ==> r[k] == (CodeString(code.Value()), ls[k])
  {
    seq(|ls|, k requires 0 <= k < |ls| => (CodeString(code.Value()), ls[k]))
  }

  /** `WriteLineSMTP(StatusCode, params String[] Response)`: the lines written. */
  function WriteLineSMTP(code: StatusCode, lines: seq<Option<string>>): (r: seq<string>)
    ensures |r| == |NonEmptyLines(lines)|
    ensures forall k :: 0 <= k < |r| ==>
              r[k] == CodeString(code.Value()) + [Marker(k < |r| - 1)] + NonEmptyLines(lines)[k]
  {
    var ls := NonEmptyLines(lines);
    Counted(WithCode(code, ls), 1, |ls|)
  }

  /** One element of `WriteLineSMTP(params SMTPResponse[] Response)`. */
  datatype Response = Response(code: StatusCode, text: Option<string>)

  function NonEmptyResponses(rs: seq<Response>): (r: seq<(string, string)>)
    ensures |r| <= |rs|
  {
    if rs == [] then []
    else if IsNotNullOrEmpty(rs[0].text) then
      [(CodeString(rs[0].code.Value()), rs[0].text.value)] + NonEmptyResponses(rs[1..])
    else NonEmptyResponses(rs[1..])
  }

  /** `WriteLineSMTP(params SMTPResponse[] Response)`: as above, each line with its own code. */
  function WriteResponses(rs: seq<Response>): (r: seq<string>)
    ensures |r| == |NonEmptyResponses(rs)|
    ensures forall k :: 0 <= k < |r| ==>
              r[k] == NonEmptyResponses(rs)[k].0 + [Marker(k < |r| - 1)] + NonEmptyResponses(rs)[k].1
  {
    var ls := NonEmptyResponses(rs);
    Counted(ls, 1, |ls|)
  }

  /** Reading a written reply back: the code is the first three characters, the
      text follows the marker, and a space marker means "last line". */
  function ReplyText(line: string): string
    requires |line| >= 4
  {
    line[4..]
  }

  predicate IsFinalLine(line: string)
    requires |line| >= 4
  {
    line[3] == ' '
  }

  /** A client parsing the written reply recovers the code on every line, the
      filtered texts in order, and a final marker on the last line only. */
  lemma ParseWriteLineSMTP(code: StatusCode, lines: seq<Option<string>>)
    ensures var r := WriteLineSMTP(code, lines);
            var texts := NonEmptyLines(lines);
            && |r| == |texts|
            && (forall k :: 0 <= k < |r| ==> |r[k]| >= 4 && r[k][..3] == CodeString(code.Value()))
            && (forall k :: 0 <= k < |r| ==> |r[k]| >= 4 && ReplyText(r[k]) == texts[k])
            && (forall k :: 0 <= k < |r| ==> |r[k]| >= 4 && (IsFinalLine(r[k]) <==> k == |r| - 1))
  {
    var r := WriteLineSMTP(code, lines);
    var texts := NonEmptyLines(lines);
    var c := CodeString(code.Value());
    forall k | 0 <= k < |r|
      ensures |r[k]| >= 4 && r[k][..3] == c && ReplyText(r[k]) == texts[k]
      ensures IsFinalLine(r[k]) <==> k == |r| - 1
    {
      assert r[k] == c + [Marker(k < |r| - 1)] + texts[k];
      assert r[k][..3] == c;
      assert r[k][3] == Marker(k < |r| - 1);
      assert r[k][4..] == texts[k];
    }
  }

  /** A reply written as one call to `WriteLineSMTP`. */
  datatype Reply = Reply(code: StatusCode, texts: seq<Option<string>>)

  /** Everything a sequence of replies puts on the wire, in order. */
  function Wire(replies: seq<Reply>): (r: seq<string>)
  {
    if replies == [] then []
    else WriteLineSMTP(replies[0].code, replies[0].texts) + Wire(replies[1..])
  }

  lemma {:induction false} WireAppend(a: seq<Reply>, b: seq<Reply>)
    ensures Wire(a + b) == Wire(a) + Wire(b)
  {
    if a == [] {
      assert a + b == b;
    } else {
      assert (a + b)[1..] == a[1..] + b;
      WireAppend(a[1..], b);
    }
  }
  /** The lines the filter keeps of one entry. */
  function Kept(line: Option<string>): seq<string> {
    if IsNotNullOrEmpty(line) then [line.value] else []
  }

  lemma NonEmptyLinesAt(lines: seq<Option<string>>, i: nat)
    requires i < |lines|
    ensures NonEmptyLines(lines[i..]) == Kept(lines[i]) + NonEmptyLines(lines[i + 1..])
  {
    assert lines[i..][1..] == lines[i + 1..];
  }

  /** The lines of a reply "<code>-<t1>", ..., "<code> <tn>" for the given texts. */
  function MultiLine(code: string, texts: seq<string>): (r: seq<string>)
    ensures |r| == |texts|
  {
    seq(|texts|, k requires 0 <= k < |texts| => code + (if k < |texts| - 1 then "-" else " ") + texts[k])
  }

  /** One reply on the wire is the multi-line form of its kept texts. */
  lemma WireOne(code: StatusCode, texts: seq<Option<string>>)
    ensures Wire([Reply(code, texts)]) == MultiLine(CodeString(code.Value()), NonEmptyLines(texts))
  {
    assert [Reply(code, texts)][1..] == [];
  }

  /** The code and the space that open a final reply line, for each status code
      the engine uses. */
  lemma CodePrefixes()
    ensures CodeString(ServiceReady.Value()) + " " == "220 "
    ensures CodeString(ServiceClosingTransmissionChannel.Value()) + " " == "221 "
    ensures CodeString(Ok.Value()) + " " == "250 "
    ensures CodeString(CannotVerifyUserWillAttemptDelivery.Value()) + " " == "252 "
    ensures CodeString(StartMailInput.Value()) + " " == "354 "
    ensures CodeString(CommandUnrecognized.Value()) + " " == "500 "
    ensures CodeString(SyntaxError.Value()) + " " == "501 "
    ensures CodeString(BadCommandSequence.Value()) + " " == "503 "
  {
  }

  /** A reply of one present, non-empty text is the single final line
      "<code> <text>". */
  lemma SingleLine(code: StatusCode, text: string)
    requires text != []
    ensures Wire([Reply(code, [Some(text)])]) == [CodeString(code.Value()) + " " + text]
  {
    assert [Reply(code, [Some(text)])][1..] == [];
    assert [Some(text)][1..] == [];
  }

  /** A reply whose only text is absent or empty writes nothing. */
  lemma WireSilent(code: StatusCode, text: Option<string>)
    requires !IsNotNullOrEmpty(text)
    ensures Wire([Reply(code, [text])]) == []
  {
    assert [Reply(code, [text])][1..] == [];
    assert [text][1..] == [];
  }
}

/** The mailing-list e-mail builder: three guarded properties (`ListId`, `Text`,
    `ContentLanguage`) and the single text body part it encodes. A `null` value
    is `None`. The inherited builder state of `AbstractEMailBuilder` is not part
    of this model. */
module MailinglistBuilder {
  import opened Wrappers
  import opened Ascii

  /** The identification of a mailing list (its `List-Id` value). */
  datatype ListId = ListId(value: string)

  datatype Builder = Builder(listId: Option<ListId>, text: Option<string>, contentLanguage: Option<string>)

  /** The body part `_EncodeBodyparts` produces. */
  datatype Bodypart = Bodypart(contentType: string, contentTransferEncoding: string, charset: string,
                               contentLanguage: Option<string>, content: Option<string>)

  const TextPlain := "text/plain"
  const QuotedPrintable := "quoted-printable"
  const Utf8 := "utf-8"

  /** What the `Text` and `ContentLanguage` setters let through: not `null`, not
      empty, and not white space only once trimmed. */
  predicate Accepted(value: Option<string>) {
    value.Some? && value.value != "" && Trim(value.value) != ""
  }

  /** A setter's guard is exactly "present and not all white space"; the separate
      emptiness test adds nothing. */
  lemma AcceptedIffNotWhiteSpace(value: Option<string>)
    ensures Accepted(value) <==> value.Some? && !AllWhiteSpace(value.value)
  {
    if value.Some? {
      TrimEmptyIffAllWhiteSpace(value.value);
    }
  }

  /** The state every builder keeps: a text or language, when set, is never blank. */
  predicate Valid(b: Builder) {
    (b.text.Some? ==> !IsBlank(b.text.value))
    && (b.contentLanguage.Some? ==> !IsBlank(b.contentLanguage.value))
  }

  function SetListId(b: Builder, value: Option<ListId>): (r: Builder)
    ensures value.Some? ==> r == b.(listId := value)
    ensures value.None? ==> r == b
  {
    if value.Some? then b.(listId := value) else b
  }

  function SetText(b: Builder, value: Option<string>): (r: Builder)
    ensures r.listId == b.listId && r.contentLanguage == b.contentLanguage
    ensures value.Some? && !AllWhiteSpace(value.value) ==> r.text == value
    ensures value.None? || AllWhiteSpace(value.value) ==> r == b
  {
    AcceptedIffNotWhiteSpace(value);
    if Accepted(value) then b.(text := value) else b
  }

  function SetContentLanguage(b: Builder, value: Option<string>): (r: Builder)
    ensures r.listId == b.listId && r.text == b.text
    ensures value.Some? && !AllWhiteSpace(value.value) ==> r.contentLanguage == value
    ensures value.None? || AllWhiteSpace(value.value) ==> r == b
  {
    AcceptedIffNotWhiteSpace(value);
    if Accepted(value) then b.(contentLanguage := value) else b
  }

  /** The constructor assigns `""` to `Text`, which the setter refuses. */
  function NewBuilder(): (r: Builder)
    ensures r.text == None && r.contentLanguage == None && r.listId == None
    ensures Valid(r)
  {
    SetText(Builder(None, None, None), Some(""))
  }

  function EncodeBodyparts(b: Builder): (r: Bodypart)
    ensures r.contentType == TextPlain && r.contentTransferEncoding == QuotedPrintable && r.charset == Utf8
    ensures r.contentLanguage == b.contentLanguage && r.content == b.text
  {
    Bodypart(TextPlain, QuotedPrintable, Utf8, b.contentLanguage, b.text)
  }

  /** One assignment to one of the three properties. */
  datatype Assignment =
    | AssignListId(listId: Option<ListId>)
    | AssignText(text: Option<string>)
    | AssignContentLanguage(language: Option<string>)

  function Assign(b: Builder, a: Assignment): Builder {
    match a
    case AssignListId(v) => SetListId(b, v)
    case AssignText(v) => SetText(b, v)
    case AssignContentLanguage(v) => SetContentLanguage(b, v)
  }

  /** A builder after a sequence of assignments, in order. */
  function AssignAll(b: Builder, assignments: seq<Assignment>): Builder
    decreases |assignments|
  {
    if assignments == [] then b else AssignAll(Assign(b, assignments[0]), assignments[1..])
  }

  /** Every setter keeps the invariant. */
  lemma AssignKeepsValid(b: Builder, a: Assignment)
    requires Valid(b)
    ensures Valid(Assign(b, a))
  {
    match a
    case AssignListId(v) =>
    case AssignText(v) =>
      if v.Some? { TrimEmptyIffAllWhiteSpace(v.value); }
    case AssignContentLanguage(v) =>
      if v.Some? { TrimEmptyIffAllWhiteSpace(v.value); }
  }

  /** Whatever is assigned, in whatever order, to a new builder, its text and
      language are never blank, and so neither is anything it encodes. */
  lemma {:induction false} AlwaysValid(b: Builder, assignments: seq<Assignment>)
    requires Valid(b)
    ensures Valid(AssignAll(b, assignments))
    ensures var p := EncodeBodyparts(AssignAll(b, assignments));
            (p.content.Some? ==> !IsBlank(p.content.value))
            && (p.contentLanguage.Some? ==> !IsBlank(p.contentLanguage.value))
    decreases |assignments|
  {
    if assignments != [] {
      AssignKeepsValid(b, assignments[0]);
      AlwaysValid(Assign(b, assignments[0]), assignments[1..]);
    }
  }

  /** The text last accepted is the text encoded: a later blank assignment does not
      erase it, a later non-blank one replaces it. */
  lemma {:induction false} LastAcceptedTextWins(b: Builder, assignments: seq<Assignment>)
    ensures AssignAll(b, assignments).text == LastAcceptedText(b.text, assignments)
    ensures EncodeBodyparts(AssignAll(b, assignments)).content == LastAcceptedText(b.text, assignments)
    decreases |assignments|
  {
    if assignments != [] {
      var a := assignments[0];
      assert Assign(b, a).text == LastAcceptedText(b.text, [a]) by {
        assert [a][1..] == [];
        if a.AssignText? && a.text.Some? {
          AcceptedIffNotWhiteSpace(a.text);
        }
      }
      LastAcceptedText1(b.text, a, assignments[1..]);
      assert [a] + assignments[1..] == assignments;
      LastAcceptedTextWins(Assign(b, a), assignments[1..]);
    }
  }

  /** The reference: the last text assignment whose value is present and not all
      white space, or the starting text when there is none. */
  function LastAcceptedText(start: Option<string>, assignments: seq<Assignment>): Option<string>
    decreases |assignments|
  {
    if assignments == [] then start
    else
      var a := assignments[|assignments| - 1];
      if a.AssignText? && a.text.Some? && !AllWhiteSpace(a.text.value) then a.text
      else LastAcceptedText(start, assignments[..|assignments| - 1])
  }

  /** Scanning from the back agrees with applying the first assignment and then the rest. */
  lemma {:induction false} LastAcceptedText1(start: Option<string>, a: Assignment, rest: seq<Assignment>)
    ensures LastAcceptedText(start, [a] + rest) == LastAcceptedText(LastAcceptedText(start, [a]), rest)
    decreases |rest|
  {
    if rest == [] {
      assert [a] + rest == [a];
    } else {
      var all := [a] + rest;
      assert all[|all| - 1] == rest[|rest| - 1];
      assert all[..|all| - 1] == [a] + rest[..|rest| - 1];
      LastAcceptedText1(start, a, rest[..|rest| - 1]);
    }
  }
}
